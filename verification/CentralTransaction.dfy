/** `CentralTx`: a transaction's copy of the tables with the directory cache in front of its
    directory walks. */
module CentralTransaction {
  import opened Core
  import opened Paths
  import opened DirTree
  import opened CentralTables
  import opened CentralModel
  import DirCache
  import Replicas

  /** Every cached pair is a directory of the table with its path. */
  ghost predicate Coherent(pairs: map<string, nat>, dirs: Dirs)
    requires TreeOk(dirs)
  {
    forall path :: path in pairs ==> IsPathOf(dirs, pairs[path], path)
  }

  ghost predicate IsPathOf(dirs: Dirs, id: nat, path: string)
    requires TreeOk(dirs)
  {
    id in dirs && DirPath(dirs, id) == path
  }

  /** Directories that are only added leave the cache coherent. */
  lemma {:induction false} CoherentGrows(pairs: map<string, nat>, d0: Dirs, d1: Dirs)
    requires TreeOk(d0) && TreeOk(d1) && Extends(d0, d1) && Coherent(pairs, d0)
    ensures Coherent(pairs, d1)
  {
    forall path | path in pairs ensures IsPathOf(d1, pairs[path], path) {
      assert IsPathOf(d0, pairs[path], path);
      NamesStable(d0, d1, pairs[path]);
    }
  }

  lemma {:induction false} CoherentShrinks(pairs: map<string, nat>, dirs: Dirs, id: nat)
    requires TreeOk(dirs) && Coherent(pairs, dirs) && id in dirs && id != ROOT && Childless(dirs, id)
    requires forall path :: path in pairs ==> pairs[path] != id
    ensures TreeOk(dirs - {id}) && Coherent(pairs, dirs - {id})
  {
    RemoveLeafOk(dirs, id);
    forall path | path in pairs ensures IsPathOf(dirs - {id}, pairs[path], path) {
      assert IsPathOf(dirs, pairs[path], path);
    }
  }

  /** A directory's path splits into names that lead to it. */
  lemma {:induction false} PathLeads(dirs: Dirs, id: nat, path: string)
    requires TreeOk(dirs) && IsPathOf(dirs, id, path)
    ensures SplitComponents(path) == Ok(NamesOf(dirs, id)) && Resolve(dirs, NamesOf(dirs, id)) == Some(id)
  {
    ComponentsOfPath(NamesOf(dirs, id));
    UpThenDown(dirs, id);
  }

  /** The cached id of a list of names is where the walk leads. */
  lemma {:induction false} CachedLeads(dirs: Dirs, id: nat, names: seq<string>)
    requires TreeOk(dirs) && ValidNames(names) && IsPathOf(dirs, id, PathOf(names))
    ensures NamesOf(dirs, id) == names && Resolve(dirs, names) == Some(id)
  {
    ComponentsOfPath(names);
    PathLeads(dirs, id, PathOf(names));
  }

  /** The path text grows with the components. */
  lemma {:induction false} NextComponent(names: seq<string>, i: nat)
    requires ValidNames(names) && i < |names|
    ensures names[..i + 1] == names[..i] + [names[i]] && ValidName(names[i]) && ValidNames(names[..i])
    ensures PathOf(names[..i + 1]) == JoinPath(PathOf(names[..i]), names[i])
  {
    PathOfSnoc(names[..i], names[i]);
    assert names[..i + 1] == names[..i] + [names[i]];
  }

  lemma {:induction false} MakeFails(dirs: Dirs, files: Files, names: seq<string>, n: nat, e: Fs0Error)
    requires n <= |names| && MakeDirs(dirs, files, names[..n]) == Err(e)
    ensures MakeDirs(dirs, files, names) == Err(e)
  {
    if n < |names| {
      assert names[..|names| - 1][..n] == names[..n];
      MakeFails(dirs, files, names[..|names| - 1], n, e);
    } else {
      assert names[..n] == names;
    }
  }

  lemma {:induction false} ResolveFails(dirs: Dirs, names: seq<string>, n: nat)
    requires n <= |names| && Resolve(dirs, names[..n]) == None
    ensures Resolve(dirs, names) == None
  {
    if n < |names| {
      assert names[..|names| - 1][..n] == names[..n];
      ResolveFails(dirs, names[..|names| - 1], n);
    } else {
      assert names[..n] == names;
    }
  }

  /** `create_dir` in terms of the plain walk. */
  ghost function CreateDirSpec(dirs: Dirs, files: Files, path: string): Result<(Dirs, nat)> {
    match SplitComponents(path)
    case Err(e) => Err(e)
    case Ok(names) => MakeDirs(dirs, files, names)
  }

  ghost function DirIdSpec(dirs: Dirs, path: string): Result<nat> {
    match SplitComponents(path)
    case Err(e) => Err(e)
    case Ok(names) =>
      match Resolve(dirs, names)
      case None => Err(NotFound)
      case Some(id) => Ok(id)
  }

  /** Where a component is cached, nothing has been made so far and it is already there. */
  lemma {:induction false} CachedMeansMade(base: Tables, init: seq<string>, name: string, id: nat, dirs: Dirs, p: nat)
    requires TreeOk(base.dirs) && ValidNames(init + [name]) && IsPathOf(base.dirs, id, PathOf(init + [name]))
    requires MakeDirs(base.dirs, base.files, init) == Ok((dirs, p))
    ensures MakeDirs(base.dirs, base.files, init + [name]) == Ok((dirs, id)) && dirs == base.dirs
  {
    assert (init + [name])[..|init|] == init;
    CachedLeads(base.dirs, id, init + [name]);
    MakeExisting(base.dirs, base.files, init + [name]);
    MakeExisting(base.dirs, base.files, init);
  }

  /** Dropping a transaction does not undo cache entries. Once the path of a directory made
      in the transaction is cached, which `get_dir_path_by_id` does, the cache still agrees
      with the committed table if and only if the directory was already there. */
  lemma {:induction false} StaleAfterRollback(base: Dirs, files: Files, names: seq<string>, dirs: Dirs, id: nat, pairs: map<string, nat>)
    requires TreeOk(base) && NoClash(base, files) && ValidNames(names) && MakeDirs(base, files, names) == Ok((dirs, id))
    requires TreeOk(dirs) && Coherent(pairs, dirs) && (names != [] ==> PathOf(names) in pairs && pairs[PathOf(names)] == id)
    ensures Coherent(pairs, base) <==> Resolve(base, names).Some?
  {
    if Resolve(base, names).Some? { MakeExisting(base, files, names); }
    if names != [] && Coherent(pairs, base) {
      assert IsPathOf(base, pairs[PathOf(names)], PathOf(names));
      CachedLeads(base, id, names);
    }
  }

  /** The directory of a target path is there. */
  ghost predicate ParentExists(dirs: Dirs, path: string) {
    Target(path).Ok? && Resolve(dirs, Target(path).value.0).Some?
  }

  /** How many cache accesses creating the directories of a target path takes at most. */
  ghost function Lookups(path: string): nat
    requires Target(path).Ok?
  {
    1 + 2 * |Target(path).value.0|
  }

  /** The same for the directory of a new name: a cache that knows it agrees with the table
      from before if and only if it was there before. */
  lemma {:induction false} PlaceStale(base: Tables, path: string, existing: Option<nat>, pairs: map<string, nat>)
    requires TablesOk(base) && MakePlace(base, path, existing).Ok?
    requires var (dirs, id, _) := MakePlace(base, path, existing).value;
      TreeOk(dirs) && Coherent(pairs, dirs) && id in dirs && (id != ROOT ==> IsCached(pairs, id, DirPath(dirs, id)))
    ensures Coherent(pairs, base.dirs) <==> ParentExists(base.dirs, path)
  {
    var (dirs, id, _) := MakePlace(base, path, existing).value;
    var names := Target(path).value.0;
    PlaceOk(base, path, existing);
    StaleAfterRollback(base.dirs, base.files, names, dirs, id, pairs);
  }

  predicate IsCached(pairs: map<string, nat>, id: nat, path: string) { path in pairs && pairs[path] == id }

  /** The directory of the file is cached, unless it is the root. */
  ghost predicate ParentKnown(pairs: map<string, nat>, t: Tables, fileId: nat) {
    && TreeOk(t.dirs) && fileId in t.files && t.files[fileId].dirId in t.dirs
    && (t.files[fileId].dirId != ROOT ==> IsCached(pairs, t.files[fileId].dirId, DirPath(t.dirs, t.files[fileId].dirId)))
  }

  /** `names.reverse()`. */
  function Reversed(names: seq<string>): (r: seq<string>)
    ensures |r| == |names|
  {
    if names == [] then [] else [names[|names| - 1]] + Reversed(names[..|names| - 1])
  }

  lemma {:induction false} ReversedSnoc(names: seq<string>, name: string)
    ensures Reversed(names + [name]) == [name] + Reversed(names)
  {
    assert (names + [name])[..|names|] == names;
  }

  /** One step up moves a name from the walk to the list. */
  lemma {:induction false} UpStep(dirs: Dirs, current: nat, names: seq<string>)
    requires TreeOk(dirs) && current in dirs && current != ROOT
    ensures var row := dirs[current];
      row.parent.Some? && row.parent.value in dirs && row.parent.value < current
      && NamesOf(dirs, current) + Reversed(names) == NamesOf(dirs, row.parent.value) + Reversed(names + [row.name])
  {
    assert RowOk(dirs, current);
    ReversedSnoc(names, dirs[current].name);
  }

  lemma {:induction false} CalculateFails(replicas: Replicas.Table, rows: seq<BundleRow>, n: nat, e: Fs0Error)
    requires n <= |rows| && CalculateSize(replicas, rows[..n]) == Err(e)
    ensures CalculateSize(replicas, rows) == Err(e)
  {
    if n < |rows| {
      assert rows[..|rows| - 1][..n] == rows[..n];
      CalculateFails(replicas, rows[..|rows| - 1], n, e);
    } else {
      assert rows[..n] == rows;
    }
  }

  lemma {:induction false} SubmittedFails(replicas: Replicas.Table, bundles: seq<Submitted>, n: nat, e: Fs0Error)
    requires n <= |bundles| && SubmittedSum(replicas, bundles[..n]) == Err(e)
    ensures SubmittedSum(replicas, bundles) == Err(e)
  {
    if n < |bundles| {
      assert bundles[..|bundles| - 1][..n] == bundles[..n];
      SubmittedFails(replicas, bundles[..|bundles| - 1], n, e);
    } else {
      assert bundles[..n] == bundles;
    }
  }

  /** What clients are told about a file. */
  datatype FileRecord = FileRecord(fileId: nat, path: string, size: nat, compressed: nat, createdAt: nat, updatedAt: nat)

  ghost function RecordOf(t: Tables, fileId: nat): FileRecord
    requires TreeOk(t.dirs) && fileId in t.files && t.files[fileId].dirId in t.dirs
  {
    var row := t.files[fileId];
    FileRecord(fileId, JoinPath(DirPath(t.dirs, row.dirId), row.name), row.size, row.compressed, row.createdAt, row.updatedAt)
  }

  class CentralTx {
    var t: Tables
    const cache: DirCache.DirCacheState

    constructor (committed: Tables, cache: DirCache.DirCacheState)
      ensures t == committed && this.cache == cache
    {
      t := committed;
      this.cache := cache;
    }

    /** The cache's own invariant, and its agreement with a table of directories. */
    ghost predicate CacheOk(dirs: Dirs)
      reads this, cache
    {
      TreeOk(dirs) && cache.Bounded() && cache.Inverse() && Coherent(cache.Pairs(), dirs)
    }

    ghost predicate HasPair(id: nat, path: string)
      reads this, cache
    {
      path in cache.Pairs() && cache.Pairs()[path] == id
    }

    /** The access counter went up by at most `n`. */
    ghost predicate Ticked(before: nat, n: nat)
      reads this, cache
    {
      cache.nextAccess <= before + n
    }

    method CachedId(ghost dirs: Dirs, path: string) returns (r: Option<nat>)
      requires CacheOk(dirs)
      modifies cache
      ensures CacheOk(dirs) && cache.Pairs() == old(cache.Pairs()) && Ticked(old(cache.nextAccess), 1)
      ensures r.Some? ==> IsPathOf(dirs, r.value, path)
    {
      r := cache.GetId(path);
      if r.Some? && path != "/" { assert IsPathOf(dirs, cache.Pairs()[path], path); }
      RootPath(dirs, ROOT);
    }

    method CachedPath(ghost dirs: Dirs, id: nat) returns (r: Option<string>)
      requires CacheOk(dirs)
      modifies cache
      ensures CacheOk(dirs) && cache.Pairs() == old(cache.Pairs())
      ensures r.Some? ==> IsPathOf(dirs, id, r.value)
      ensures r.Some? && id != ROOT ==> HasPair(id, r.value)
      ensures r.None? ==> cache.nextAccess == old(cache.nextAccess)
    {
      r := cache.GetPath(id);
      if r.Some? && id != ROOT {
        assert r.value in cache.Pairs() && cache.Pairs()[r.value] == id;
        assert IsPathOf(dirs, cache.Pairs()[r.value], r.value);
      }
      RootPath(dirs, ROOT);
    }

    method RememberDir(ghost dirs: Dirs, id: nat, path: string)
      requires CacheOk(dirs) && IsPathOf(dirs, id, path)
      modifies cache
      ensures CacheOk(dirs) && Ticked(old(cache.nextAccess), 1)
      ensures id != ROOT && old(cache.nextAccess) < U64_MAX ==> HasPair(id, path)
    {
      RootPath(dirs, id);
      PairFits(dirs, id, path);
      cache.Remember(id, path);
      RememberCoherent(old(cache.Pairs()), cache.Pairs(), dirs, id, path) by {
        forall p | p in cache.Pairs()
          ensures (p in old(cache.Pairs()) && cache.Pairs()[p] == old(cache.Pairs())[p]) || (p == path && cache.Pairs()[p] == id)
        {}
      }
    }

    /* ---- Queries ---- */

    method ChildQuery(parent: nat, name: string) returns (r: Option<nat>)
      requires TreeOk(t.dirs)
      ensures r == Child(t.dirs, parent, name)
    {
      if id :| id in t.dirs && t.dirs[id] == DirRow(Some(parent), name) {
        ChildIs(t.dirs, parent, name, id);
        return Some(id);
      }
      assert forall id: nat :: !IsChild(t.dirs, parent, name, id);
      return None;
    }

    method FileQuery(dirId: nat, name: string) returns (r: Option<nat>)
      requires NamesUnique(t.files)
      ensures r == FileAt(t.files, dirId, name)
    {
      if f :| f in t.files && t.files[f].dirId == dirId && t.files[f].name == name {
        assert FreeFor(t.files, dirId, name, f) && IsFileAt(t.files, dirId, name, f);
        return Some(f);
      }
      assert forall f: nat :: !IsFileAt(t.files, dirId, name, f);
      return None;
    }

    method EnsureChildNameAvailable(parent: nat, name: string, existing: Option<nat>, path: string) returns (e: Option<Fs0Error>)
      requires TreeOk(t.dirs) && NamesUnique(t.files)
      ensures e == if Taken(t.dirs, t.files, parent, name, existing) then Some(AlreadyExists(path)) else None
    {
      var childDir := ChildQuery(parent, name);
      if childDir.Some? { return Some(AlreadyExists(path)); }
      var childFile := FileQuery(parent, name);
      if childFile.Some? && childFile != existing { return Some(AlreadyExists(path)); }
      return None;
    }

    /* ---- Walks ---- */

    /** Looks a directory up by its path, component by component, through the cache. */
    method GetDirIdByPath(path: string) returns (r: Result<nat>)
      requires CacheOk(t.dirs)
      modifies cache
      ensures CacheOk(t.dirs) && r == DirIdSpec(t.dirs, path)
    {
      var cached := CachedId(t.dirs, path);
      if cached.Some? {
        PathLeads(t.dirs, cached.value, path);
        return Ok(cached.value);
      }
      var split := SplitComponents(path);
      if split.Err? { return Err(split.error); }
      PathOfComponents(path);
      r := WalkNames(split.value);
    }

    /** The loop over the components of a path. */
    method WalkNames(names: seq<string>) returns (r: Result<nat>)
      requires CacheOk(t.dirs) && ValidNames(names)
      modifies cache
      ensures CacheOk(t.dirs)
      ensures r == match Resolve(t.dirs, names) case None => Err(NotFound) case Some(id) => Ok(id)
    {
      var dirId := ROOT;
      var currentPath := "/";
      for i := 0 to |names|
        invariant CacheOk(t.dirs)
        invariant Resolve(t.dirs, names[..i]) == Some(dirId) && currentPath == PathOf(names[..i])
      {
        NextComponent(names, i);
        currentPath := JoinPath(currentPath, names[i]);
        var next := WalkDown(names[..i], dirId, names[i], currentPath);
        if next.None? {
          ResolveFails(t.dirs, names, i + 1);
          return Err(NotFound);
        }
        dirId := next.value;
      }
      assert names[..|names|] == names;
      return Ok(dirId);
    }

    /** One component of the way down, through the cache or the table. */
    method WalkDown(ghost init: seq<string>, dirId: nat, name: string, currentPath: string) returns (r: Option<nat>)
      requires CacheOk(t.dirs) && ValidName(name) && ValidNames(init) && currentPath == PathOf(init + [name])
      requires Resolve(t.dirs, init) == Some(dirId)
      modifies cache
      ensures CacheOk(t.dirs) && r == Resolve(t.dirs, init + [name])
    {
      assert (init + [name])[..|init|] == init;
      r := CachedId(t.dirs, currentPath);
      if r.Some? {
        CachedLeads(t.dirs, r.value, init + [name]);
        return;
      }
      r := ChildQuery(dirId, name);
      if r.Some? {
        DownThenUp(t.dirs, init + [name]);
        RememberDir(t.dirs, r.value, currentPath);
      }
    }

    /** Collects the names on the way up to the root, last one first. */
    method NamesUp(dirId: nat) returns (r: Result<seq<string>>)
      requires TreeOk(t.dirs)
      ensures r == if dirId in t.dirs then Ok(NamesOf(t.dirs, dirId)) else Err(NotFound)
    {
      if dirId !in t.dirs { return Err(NotFound); }
      var current := dirId;
      var names := [];
      while current != ROOT
        invariant current in t.dirs
        invariant NamesOf(t.dirs, dirId) == NamesOf(t.dirs, current) + Reversed(names)
        decreases current
      {
        UpStep(t.dirs, current, names);
        var row := t.dirs[current];
        names := names + [row.name];
        current := row.parent.value;
      }
      assert NamesOf(t.dirs, dirId) == Reversed(names);
      return Ok(Reversed(names));
    }

    /** Finds a directory's path by walking up, and caches it, unless the access counter is
        used up. */
    method GetDirPathById(dirId: nat) returns (r: Result<string>)
      requires CacheOk(t.dirs)
      modifies cache
      ensures CacheOk(t.dirs)
      ensures r.Ok? && dirId != ROOT && old(cache.nextAccess) < U64_MAX ==> HasPair(dirId, r.value)
      ensures r == if dirId in t.dirs then Ok(DirPath(t.dirs, dirId)) else Err(NotFound)
    {
      var cached := CachedPath(t.dirs, dirId);
      if cached.Some? { return Ok(cached.value); }
      var names := NamesUp(dirId);
      if names.Err? { return Err(names.error); }
      var path := "/" + JoinSlash(names.value);
      RememberDir(t.dirs, dirId, path);
      return Ok(path);
    }

    /** `create_dir`: the ids come from the cache, from rows, or from new rows; only rows
        that were there before are cached. */
    method CreateDir(path: string) returns (r: Result<nat>)
      requires CacheOk(t.dirs) && NoClash(t.dirs, t.files) && NamesUnique(t.files)
      modifies this, cache
      ensures CacheOk(old(t).dirs)
      ensures SplitComponents(path).Ok? ==> Ticked(old(cache.nextAccess), 1 + 2 * |SplitComponents(path).value|)
      ensures match CreateDirSpec(old(t).dirs, old(t).files, path)
        case Err(e) => r == Err(e)
        case Ok((dirs, id)) => r == Ok(id) && t == old(t).(dirs := dirs)
    {
      ghost var base := t;
      var cached := CachedId(t.dirs, path);
      if cached.Some? {
        PathLeads(t.dirs, cached.value, path);
        MakeExisting(t.dirs, t.files, NamesOf(t.dirs, cached.value));
        return Ok(cached.value);
      }
      var split := SplitComponents(path);
      if split.Err? { return Err(split.error); }
      PathOfComponents(path);
      r := MakeNames(split.value);
    }

    /** The loop of `create_dir` over the components of a path. */
    method MakeNames(names: seq<string>) returns (r: Result<nat>)
      requires CacheOk(t.dirs) && NoClash(t.dirs, t.files) && NamesUnique(t.files) && ValidNames(names)
      modifies this, cache
      ensures CacheOk(old(t).dirs) && Ticked(old(cache.nextAccess), 2 * |names|)
      ensures match MakeDirs(old(t).dirs, old(t).files, names)
        case Err(e) => r == Err(e)
        case Ok((dirs, id)) => r == Ok(id) && t == old(t).(dirs := dirs)
    {
      ghost var base := t;
      var dirId := ROOT;
      var currentPath := "/";
      for i := 0 to |names|
        invariant CacheOk(base.dirs) && t == base.(dirs := t.dirs) && Ticked(old(cache.nextAccess), 2 * i)
        invariant MakeDirs(base.dirs, base.files, names[..i]) == Ok((t.dirs, dirId)) && currentPath == PathOf(names[..i])
      {
        NextComponent(names, i);
        currentPath := JoinPath(currentPath, names[i]);
        var next := MakeDown(base, names[..i], dirId, names[i], currentPath);
        if next.Err? {
          MakeFails(base.dirs, base.files, names, i + 1, next.error);
          return Err(next.error);
        }
        dirId := next.value;
      }
      assert names[..|names|] == names;
      return Ok(dirId);
    }

    /** One component of `create_dir`: its id comes from the cache or from the table. */
    method MakeDown(ghost base: Tables, ghost init: seq<string>, dirId: nat, name: string, currentPath: string)
      returns (r: Result<nat>)
      requires CacheOk(base.dirs) && t == base.(dirs := t.dirs) && NoClash(base.dirs, base.files) && NamesUnique(base.files)
      requires ValidName(name) && ValidNames(init) && currentPath == PathOf(init + [name])
      requires MakeDirs(base.dirs, base.files, init) == Ok((t.dirs, dirId))
      modifies this, cache
      ensures CacheOk(base.dirs) && t == base.(dirs := t.dirs) && Ticked(old(cache.nextAccess), 2)
      ensures match r
        case Err(e) => MakeDirs(base.dirs, base.files, init + [name]) == Err(e)
        case Ok(id) => MakeDirs(base.dirs, base.files, init + [name]) == Ok((t.dirs, id))
    {
      var cached := CachedId(base.dirs, currentPath);
      if cached.Some? {
        CachedMeansMade(base, init, name, cached.value, t.dirs, dirId);
        return Ok(cached.value);
      }
      MakeDirsOk(base.dirs, base.files, init);
      r := StepDown(base, init, dirId, name, currentPath);
    }

    /** One component that is not cached: an existing row, which is cached, or a new one. */
    method StepDown(ghost base: Tables, ghost init: seq<string>, dirId: nat, name: string, currentPath: string)
      returns (r: Result<nat>)
      requires CacheOk(base.dirs) && t == base.(dirs := t.dirs) && NamesUnique(base.files)
      requires ValidName(name) && ValidNames(init) && currentPath == PathOf(init + [name])
      requires MakeDirs(base.dirs, base.files, init) == Ok((t.dirs, dirId)) && Made(base.dirs, base.files, init, t.dirs, dirId)
      modifies this, cache
      ensures CacheOk(base.dirs) && t == base.(dirs := t.dirs) && Ticked(old(cache.nextAccess), 1)
      ensures match r
        case Err(e) => MakeDirs(base.dirs, base.files, init + [name]) == Err(e)
        case Ok(id) => MakeDirs(base.dirs, base.files, init + [name]) == Ok((t.dirs, id))
    {
      assert (init + [name])[..|init|] == init;
      var existing := ChildQuery(dirId, name);
      if existing.Some? {
        MadeBefore(base.dirs, base.files, init, t.dirs, dirId, name, existing.value);
        assert t.dirs == base.dirs;
        RememberDir(base.dirs, existing.value, currentPath);
        return Ok(existing.value);
      }
      var e := EnsureChildNameAvailable(dirId, name, None, currentPath);
      if e.Some? { return Err(e.value); }
      var id := NextId(t.dirs.Keys);
      t := t.(dirs := t.dirs[id := DirRow(Some(dirId), name)]);
      return Ok(id);
    }

    /** `remove_dir`: an empty directory goes from the table and from the cache. */
    method RemoveDir(path: string) returns (r: Result<()>)
      requires TablesOk(t) && CacheOk(t.dirs)
      modifies this, cache
      ensures match CentralTables.RemoveDir(old(t), path)
        case Err(e) => r == Err(e) && t == old(t)
        case Ok(t1) => r == Ok(()) && t == t1
      ensures TablesOk(t) && CacheOk(old(t).dirs) && CacheOk(t.dirs)
    {
      if path == "/" { return Err(InvalidRequest); }
      var found := GetDirIdByPath(path);
      if found.Err? { return Err(found.error); }
      var dirId := found.value;
      var empty := IsEmpty(dirId);
      if !empty { return Err(InvalidRequest); }
      ghost var id := RemovedDir(t, path);
      RemoveKept(t, path);
      t := t.(dirs := t.dirs - {dirId});
      ForgetDir(old(t).dirs, dirId, path);
      return Ok(());
    }

    /** The counts of child directories and files are both zero. */
    method IsEmpty(dirId: nat) returns (empty: bool)
      ensures empty == IsEmptyDir(t, dirId)
    {
      var childDirs := exists k :: k in t.dirs && t.dirs[k].parent == Some(dirId);
      var childFiles := exists f :: f in t.files && t.files[f].dirId == dirId;
      return !childDirs && !childFiles;
    }

    method ForgetDir(ghost dirs: Dirs, dirId: nat, path: string)
      requires CacheOk(dirs) && IsPathOf(dirs, dirId, path) && dirId != ROOT && Childless(dirs, dirId)
      modifies cache
      ensures CacheOk(dirs) && CacheOk(dirs - {dirId})
    {
      RootPath(dirs, dirId);
      PairFits(dirs, dirId, path);
      cache.Forget(dirId, path);
      forall p | p in cache.Pairs() ensures IsPathOf(dirs, cache.Pairs()[p], p) {
        assert IsPathOf(dirs, old(cache.Pairs())[p], p);
      }
      CoherentShrinks(cache.Pairs(), dirs, dirId);
    }

    /* ---- Files ---- */

    method GetFileByPath(path: string) returns (r: Result<nat>)
      requires NamesUnique(t.files) && CacheOk(t.dirs)
      modifies cache
      ensures CacheOk(t.dirs) && r == CentralTables.GetFileByPath(t, path)
    {
      var target := SplitDirAndName(path);
      if target.Err? { return Err(target.error); }
      var (dir, name) := target.value;
      DirNameRoundTrip(path);
      var dirId := GetDirIdByPath(dir);
      if dirId.Err? { return Err(dirId.error); }
      var file := FileQuery(dirId.value, name);
      if file.None? { return Err(NotFound); }
      return Ok(file.value);
    }

    /** Splits a target path, creates its directories and checks that its name is free. */
    method PlaceFor(path: string, existing: Option<nat>) returns (r: Result<(nat, string)>)
      requires CacheOk(t.dirs) && NoClash(t.dirs, t.files) && NamesUnique(t.files)
      modifies this, cache
      ensures CacheOk(old(t).dirs) && (Target(path).Ok? ==> Ticked(old(cache.nextAccess), Lookups(path)))
      ensures match MakePlace(old(t), path, existing)
        case Err(e) => r == Err(e)
        case Ok((dirs, dirId, name)) => r == Ok((dirId, name)) && t == old(t).(dirs := dirs)
    {
      var target := SplitDirAndName(path);
      if target.Err? { return Err(target.error); }
      var (dir, name) := target.value;
      DirNameRoundTrip(path);
      ghost var names := Target(path).value.0;
      var dirId := CreateDir(dir);
      if dirId.Err? { return Err(dirId.error); }
      MakeDirsOk(old(t).dirs, old(t).files, names);
      var e := EnsureChildNameAvailable(dirId.value, name, existing, path);
      if e.Some? { return Err(e.value); }
      return Ok((dirId.value, name));
    }

    /** Inserts a `files` row at a new path. */
    method InsertFile(path: string, size: nat, compressed: nat, now: nat) returns (r: Result<nat>)
      requires CacheOk(t.dirs) && NoClash(t.dirs, t.files) && NamesUnique(t.files)
      modifies this, cache
      ensures CacheOk(old(t).dirs) && (Target(path).Ok? ==> Ticked(old(cache.nextAccess), Lookups(path)))
      ensures match MakePlace(old(t), path, None)
        case Err(e) => r == Err(e)
        case Ok((dirs, dirId, name)) =>
          r == Ok(old(t).nextFileId) && t == AddFile(old(t), dirs, FileRow(dirId, name, size, compressed, now, now))
    {
      var place := PlaceFor(path, None);
      if place.Err? { return Err(place.error); }
      var (dirId, name) := place.value;
      r := Ok(t.nextFileId);
      t := AddFile(t, t.dirs, FileRow(dirId, name, size, compressed, now, now));
    }

    method CreateFile(path: string, now: nat) returns (r: Result<nat>)
      requires CacheOk(t.dirs) && NoClash(t.dirs, t.files) && NamesUnique(t.files)
      modifies this, cache
      ensures CacheOk(old(t).dirs)
      ensures match CentralTables.CreateFile(old(t), path, now)
        case Err(e) => r == Err(e)
        case Ok((t1, f)) => r == Ok(f) && t == t1
    {
      r := InsertFile(path, 0, 0, now);
    }

    method CopyFileById(source: nat, path: string, now: nat) returns (r: Result<nat>)
      requires CacheOk(t.dirs) && NoClash(t.dirs, t.files) && NamesUnique(t.files)
      modifies this, cache
      ensures CacheOk(old(t).dirs) && (Target(path).Ok? ==> Ticked(old(cache.nextAccess), Lookups(path)))
      ensures match CopyRow(old(t), source, path, now)
        case Err(e) => r == Err(e)
        case Ok((t1, f)) => r == Ok(f) && t == t1
    {
      var target := SplitDirAndName(path);
      if target.Err? { return Err(target.error); }
      if source > I64_MAX { return Err(IntegerConversion); }
      if source !in t.files { return Err(NotFound); }
      r := InsertFile(path, t.files[source].size, t.files[source].compressed, now);
    }

    method RenameFileById(fileId: nat, path: string, now: nat) returns (r: Result<()>)
      requires CacheOk(t.dirs) && NoClash(t.dirs, t.files) && NamesUnique(t.files)
      modifies this, cache
      ensures CacheOk(old(t).dirs) && (Target(path).Ok? ==> Ticked(old(cache.nextAccess), Lookups(path)))
      ensures match RenameRow(old(t), fileId, path, now)
        case Err(e) => r == Err(e)
        case Ok(t1) => r == Ok(()) && t == t1
    {
      var place := PlaceFor(path, Some(fileId));
      if place.Err? { return Err(place.error); }
      var (dirId, name) := place.value;
      if fileId > I64_MAX { return Err(IntegerConversion); }
      if fileId !in t.files { return Err(NotFound); }
      t := t.(files := t.files[fileId := t.files[fileId].(dirId := dirId, name := name, updatedAt := now)]);
      return Ok(());
    }

    /** `file_record`: the row with its path. */
    method GetFileRecord(fileId: nat) returns (record: FileRecord)
      requires TreeOk(t.dirs) && CacheOk(t.dirs) && fileId in t.files && t.files[fileId].dirId in t.dirs
      modifies cache
      ensures CacheOk(t.dirs) && record == RecordOf(t, fileId)
      ensures var row := t.files[fileId];
        && record.fileId == fileId && record.path == JoinPath(DirPath(t.dirs, row.dirId), row.name)
        && record.size == row.size && record.compressed == row.compressed
        && record.createdAt == row.createdAt && record.updatedAt == row.updatedAt
      ensures t.files[fileId].dirId != ROOT && old(cache.nextAccess) < U64_MAX ==>
        HasPair(t.files[fileId].dirId, DirPath(t.dirs, t.files[fileId].dirId))
    {
      var row := t.files[fileId];
      var dir := GetDirPathById(row.dirId);
      return FileRecord(fileId, JoinPath(dir.value, row.name), row.size, row.compressed, row.createdAt, row.updatedAt);
    }

    /** The writes of a commit after its last check. */
    method WriteCommit(ghost base: Tables, req: CommitRequest, fileId: nat, compressed: nat, now: nat) returns (r: Result<FileRecord>)
      requires CacheOk(t.dirs) && t == base.(fileBundles := base.fileBundles[fileId := Numbered(req.bundles)])
      requires fileId in base.files && base.files[fileId].dirId in base.dirs
      modifies this, cache
      ensures CacheOk(t.dirs) && t == CommitWrites(base, req, fileId, compressed, now) && r == Ok(RecordOf(t, fileId))
    {
      var file := t.files[fileId];
      t := t.(files := t.files[fileId := file.(size := req.newSize, compressed := compressed, updatedAt := now)]);
      t := DropLease(t, req.leaseId);
      var dir := GetDirPathById(file.dirId);
      t := Logging(t, Change(if file.size == 0 then Created else Updated, Some((dir.value, file.name)), fileId, now));
      var record := GetFileRecord(fileId);
      return Ok(record);
    }

    /* ---- Bundle lists ---- */

    method UpsertFileBundles(fileId: nat, bundles: seq<Submitted>)
      modifies this
      ensures t == old(t).(fileBundles := old(t).fileBundles[fileId := Numbered(bundles)])
    {
      t := t.(fileBundles := t.fileBundles[fileId := []]);
      for i := 0 to |bundles|
        invariant t == old(t).(fileBundles := old(t).fileBundles[fileId := Numbered(bundles[..i])])
      {
        assert Numbered(bundles[..i + 1]) == Numbered(bundles[..i]) + [BundleRow(i, bundles[i].bundleId)];
        t := t.(fileBundles := t.fileBundles[fileId := t.fileBundles[fileId] + [BundleRow(i, bundles[i].bundleId)]]);
      }
      assert bundles[..|bundles|] == bundles;
    }

    /** The running sums over a file's stored bundles. */
    method CalculateSizeByFileId(fileId: nat) returns (r: Result<(nat, nat)>)
      ensures r == CalculateSize(t.replicas, RowsOf(t, fileId))
    {
      var rows := RowsOf(t, fileId);
      var ids := seq(|rows|, i requires 0 <= i < |rows| => rows[i].bundleId);
      var ready := Replicas.ReadyBundles(t.replicas, ids);
      var raw, compressed := 0, 0;
      for i := 0 to |rows|
        invariant CalculateSize(t.replicas, rows[..i]) == Ok((raw, compressed))
      {
        assert rows[..i + 1][..i] == rows[..i] && ids[i] == rows[i].bundleId;
        var e := if rows[i].bundleId !in ready then Some(ChunkNotReady)
                 else if raw + ready[rows[i].bundleId].raw > U64_MAX then Some(IntegerConversion)
                 else if compressed + ready[rows[i].bundleId].compressed > U64_MAX then Some(IntegerConversion)
                 else None;
        if e.Some? {
          CalculateFails(t.replicas, rows, i + 1, e.value);
          return Err(e.value);
        }
        raw := raw + ready[rows[i].bundleId].raw;
        compressed := compressed + ready[rows[i].bundleId].compressed;
      }
      assert rows[..|rows|] == rows;
      return Ok((raw, compressed));
    }

    /** The first loop of a commit over the submitted bundles. */
    method SumSubmitted(bundles: seq<Submitted>) returns (r: Result<nat>)
      ensures r == SubmittedSum(t.replicas, bundles)
    {
      var ids := seq(|bundles|, i requires 0 <= i < |bundles| => bundles[i].bundleId);
      var ready := Replicas.ReadyBundles(t.replicas, ids);
      var sum := 0;
      for i := 0 to |bundles|
        invariant SubmittedSum(t.replicas, bundles[..i]) == Ok(sum)
      {
        assert bundles[..i + 1][..i] == bundles[..i] && ids[i] == bundles[i].bundleId;
        var b := bundles[i];
        var e := if b.bundleId !in ready then Some(ChunkNotReady)
                 else if ready[b.bundleId].raw != b.raw then Some(InvalidRequest)
                 else if sum + b.raw > U64_MAX then Some(IntegerConversion)
                 else None;
        if e.Some? {
          SubmittedFails(t.replicas, bundles, i + 1, e.value);
          return Err(e.value);
        }
        sum := sum + b.raw;
      }
      assert bundles[..|bundles|] == bundles;
      return Ok(sum);
    }

    lemma {:induction false} PairFits(dirs: Dirs, id: nat, path: string)
      requires CacheOk(dirs) && IsPathOf(dirs, id, path)
      ensures cache.Fits(id, path)
    {
      if path in cache.pathToEntry {
        assert IsPathOf(dirs, cache.Pairs()[path], path);
        SamePathSameDir(dirs, cache.Pairs()[path], id);
      }
      if id in cache.idToPath {
        var p := cache.idToPath[id];
        assert p in cache.Pairs() && IsPathOf(dirs, cache.Pairs()[p], p);
      }
    }
  }

  lemma {:induction false} RememberCoherent(before: map<string, nat>, after: map<string, nat>, dirs: Dirs, id: nat, path: string)
    requires TreeOk(dirs) && Coherent(before, dirs) && IsPathOf(dirs, id, path)
    requires forall p :: p in after ==> (p in before && after[p] == before[p]) || (p == path && after[p] == id)
    ensures Coherent(after, dirs)
  {
    forall p | p in after ensures IsPathOf(dirs, after[p], p) {
      if p in before { assert IsPathOf(dirs, before[p], p); }
    }
  }
}
