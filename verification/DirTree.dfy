/** The `dirs` table and the plain walks over it, up from a directory and down a path. */
module DirTree {
  import opened Core
  import opened Paths

  /** A row of `dirs`; the root is row 0, without parent and with an empty name. */
  datatype DirRow = DirRow(parent: Option<nat>, name: string)

  type Dirs = map<nat, DirRow>

  const ROOT: nat := 0
  const ROOT_ROW: DirRow := DirRow(None, "")

  /** What the table's constraints and the way rows are inserted guarantee: a root, names
      that are path components, a parent with a smaller id for every other row, and no two
      rows with the same parent and name. */
  ghost predicate TreeOk(dirs: Dirs) {
    && ROOT in dirs && dirs[ROOT] == ROOT_ROW
    && (forall id {:trigger RowOk(dirs, id)} :: id in dirs && id != ROOT ==> RowOk(dirs, id))
    && (forall id {:trigger OnlyRow(dirs, id)} :: id in dirs ==> OnlyRow(dirs, id))
  }

  ghost predicate OnlyRow(dirs: Dirs, id: nat)
    requires id in dirs
  {
    forall k :: k in dirs && k != id ==> dirs[k] != dirs[id]
  }

  ghost predicate RowOk(dirs: Dirs, id: nat)
    requires id in dirs
  {
    dirs[id].parent.Some? && dirs[id].parent.value in dirs && dirs[id].parent.value < id && ValidName(dirs[id].name)
  }

  /** The names on the way from the root down to a directory, found by walking up. */
  ghost function NamesOf(dirs: Dirs, id: nat): (names: seq<string>)
    requires TreeOk(dirs) && id in dirs
    ensures ValidNames(names)
    decreases id
  {
    if id == ROOT then []
    else
      assert RowOk(dirs, id);
      NamesOf(dirs, dirs[id].parent.value) + [dirs[id].name]
  }

  ghost function DirPath(dirs: Dirs, id: nat): string
    requires TreeOk(dirs) && id in dirs
  {
    PathOf(NamesOf(dirs, id))
  }

  ghost predicate IsChild(dirs: Dirs, parent: nat, name: string, id: nat) {
    id in dirs && dirs[id] == DirRow(Some(parent), name)
  }

  /** The query by parent and name. */
  ghost function Child(dirs: Dirs, parent: nat, name: string): Option<nat> {
    if id :| IsChild(dirs, parent, name, id) then Some(id) else None
  }

  lemma {:induction false} ChildIs(dirs: Dirs, parent: nat, name: string, id: nat)
    requires TreeOk(dirs) && IsChild(dirs, parent, name, id)
    ensures Child(dirs, parent, name) == Some(id)
  {
    assert OnlyRow(dirs, id);
  }

  /** The walk down a list of names. */
  ghost function Resolve(dirs: Dirs, names: seq<string>): Option<nat> {
    if names == [] then Some(ROOT)
    else match Resolve(dirs, names[..|names| - 1])
      case None => None
      case Some(p) => Child(dirs, p, names[|names| - 1])
  }

  /** Up, then down again: the path of a directory leads to that directory. */
  lemma {:induction false} UpThenDown(dirs: Dirs, id: nat)
    requires TreeOk(dirs) && id in dirs
    ensures Resolve(dirs, NamesOf(dirs, id)) == Some(id)
    decreases id
  {
    if id != ROOT {
      assert RowOk(dirs, id);
      var p := dirs[id].parent.value;
      UpThenDown(dirs, p);
      var names := NamesOf(dirs, id);
      assert names[..|names| - 1] == NamesOf(dirs, p);
      ChildIs(dirs, p, dirs[id].name, id);
    }
  }

  /** Down, then up again: a directory found under a path has that path. */
  lemma {:induction false} DownThenUp(dirs: Dirs, names: seq<string>)
    requires TreeOk(dirs) && Resolve(dirs, names).Some?
    ensures Resolve(dirs, names).value in dirs && NamesOf(dirs, Resolve(dirs, names).value) == names
  {
    if names != [] {
      DownThenUp(dirs, names[..|names| - 1]);
      assert names == names[..|names| - 1] + [names[|names| - 1]];
    }
  }

  /** Directories and their path texts correspond one to one. */
  lemma {:induction false} SamePathSameDir(dirs: Dirs, i: nat, j: nat)
    requires TreeOk(dirs) && i in dirs && j in dirs && DirPath(dirs, i) == DirPath(dirs, j)
    ensures i == j
  {
    ComponentsOfPath(NamesOf(dirs, i));
    ComponentsOfPath(NamesOf(dirs, j));
    UpThenDown(dirs, i);
    UpThenDown(dirs, j);
  }

  lemma {:induction false} RootPath(dirs: Dirs, id: nat)
    requires TreeOk(dirs) && id in dirs
    ensures DirPath(dirs, id) == "/" <==> id == ROOT
  {
    if DirPath(dirs, id) == "/" {
      assert DirPath(dirs, ROOT) == "/";
      SamePathSameDir(dirs, id, ROOT);
    }
  }

  /** The row id SQLite assigns: one more than the largest in use. */
  function NextId(keys: set<nat>): (n: nat)
    ensures forall k :: k in keys ==> k < n
  {
    if keys == {} then 0
    else
      LargestExists(keys);
      var m: nat :| m in keys && forall k :: k in keys ==> k <= m;
      m + 1
  }

  lemma {:induction false} LargestExists(keys: set<nat>)
    requires keys != {}
    ensures exists m :: m in keys && forall k :: k in keys ==> k <= m
    decreases |keys|
  {
    var x :| x in keys;
    if keys == {x} {
    } else {
      assert keys - {x} != {} by { assert keys == {x} + (keys - {x}); }
      LargestExists(keys - {x});
      var m :| m in keys - {x} && forall k :: k in keys - {x} ==> k <= m;
      var top := if x < m then m else x;
      assert top in keys && forall k :: k in keys ==> k <= top;
    }
  }

  /** `d1` has all rows of `d0`, unchanged. */
  ghost predicate Extends(d0: Dirs, d1: Dirs) {
    forall id :: id in d0 ==> id in d1 && d1[id] == d0[id]
  }

  lemma {:induction false} InsertOk(dirs: Dirs, parent: nat, name: string)
    requires TreeOk(dirs) && parent in dirs && ValidName(name) && Child(dirs, parent, name) == None
    ensures var id := NextId(dirs.Keys);
      var d := dirs[id := DirRow(Some(parent), name)];
      id !in dirs && id != ROOT && TreeOk(d) && Extends(dirs, d) && NamesOf(d, id) == NamesOf(dirs, parent) + [name]
  {
    var id := NextId(dirs.Keys);
    assert id !in dirs.Keys;
    var d := dirs[id := DirRow(Some(parent), name)];
    forall k | k in d && k != ROOT ensures RowOk(d, k) {
      if k != id { assert RowOk(dirs, k); }
    }
    forall k | k in d ensures OnlyRow(d, k) { RowStaysOnly(dirs, parent, name, id, k); }
    NamesStable(dirs, d, parent);
  }

  lemma {:induction false} RowStaysOnly(dirs: Dirs, parent: nat, name: string, id: nat, k: nat)
    requires Child(dirs, parent, name) == None && id !in dirs
    requires forall i :: i in dirs ==> OnlyRow(dirs, i)
    requires k in dirs || k == id
    ensures OnlyRow(dirs[id := DirRow(Some(parent), name)], k)
  {
    assert forall i :: i in dirs ==> !IsChild(dirs, parent, name, i);
    if k in dirs { assert OnlyRow(dirs, k); }
  }

  /** Inserting rows leaves every existing path as it was. */
  lemma {:induction false} NamesStable(d0: Dirs, d1: Dirs, id: nat)
    requires TreeOk(d0) && TreeOk(d1) && Extends(d0, d1) && id in d0
    ensures NamesOf(d1, id) == NamesOf(d0, id)
    decreases id
  {
    if id != ROOT {
      assert RowOk(d0, id);
      NamesStable(d0, d1, d0[id].parent.value);
    }
  }

  /** Removing an empty directory leaves a tree in which all other paths are unchanged. */
  lemma {:induction false} RemoveLeafOk(dirs: Dirs, id: nat)
    requires TreeOk(dirs) && id in dirs && id != ROOT
    requires forall k :: k in dirs ==> dirs[k].parent != Some(id)
    ensures TreeOk(dirs - {id})
    ensures forall k :: k in dirs && k != id ==> DirPath(dirs - {id}, k) == DirPath(dirs, k)
  {
    var d := dirs - {id};
    forall k | k in d && k != ROOT ensures RowOk(d, k) { assert RowOk(dirs, k); }
    forall k | k in d ensures OnlyRow(d, k) { assert OnlyRow(dirs, k); }
    forall k | k in dirs && k != id ensures DirPath(d, k) == DirPath(dirs, k) { NamesStable(d, dirs, k); }
  }
}
