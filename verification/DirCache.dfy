/** `DirCacheState`: the two-way cache between directory paths and ids, with its
    least-recently-used trimming. */
module DirCache {
  import opened Core

  const MAX_ENTRIES: nat := 8192
  const TRIM_TO_ENTRIES: nat := 6144

  datatype Entry = Entry(dirId: nat, lastAccess: nat)

  datatype Candidate = Candidate(path: string, dirId: nat, lastAccess: nat)

  ghost predicate SortedByAccess(s: seq<Candidate>) {
    forall i, j :: 0 <= i < j < |s| ==> s[i].lastAccess <= s[j].lastAccess
  }

  /** Where a stable sort by insertion puts a candidate: after all that are not later. */
  method Slot(sorted: seq<Candidate>, access: nat) returns (at: nat)
    requires SortedByAccess(sorted)
    ensures at <= |sorted|
    ensures forall j :: 0 <= j < at ==> sorted[j].lastAccess <= access
    ensures forall j :: at <= j < |sorted| ==> access < sorted[j].lastAccess
  {
    at := |sorted|;
    while at > 0 && sorted[at - 1].lastAccess > access
      invariant at <= |sorted|
      invariant forall j :: at <= j < |sorted| ==> access < sorted[j].lastAccess
    {
      at := at - 1;
    }
  }

  /** The candidates with one stamp, in order. */
  function WithAccess(s: seq<Candidate>, access: nat): seq<Candidate> {
    if s == [] then []
    else
      var init, last := WithAccess(s[..|s| - 1], access), s[|s| - 1];
      if last.lastAccess == access then init + [last] else init
  }

  lemma {:induction false} WithAccessConcat(a: seq<Candidate>, b: seq<Candidate>, access: nat)
    ensures WithAccess(a + b, access) == WithAccess(a, access) + WithAccess(b, access)
  {
    if b == [] {
      assert a + b == a;
    } else {
      assert (a + b)[..|a + b| - 1] == a + b[..|b| - 1];
      WithAccessConcat(a, b[..|b| - 1], access);
    }
  }

  lemma {:induction false} NoneLater(s: seq<Candidate>, access: nat)
    requires forall j :: 0 <= j < |s| ==> access < s[j].lastAccess
    ensures WithAccess(s, access) == []
  {
    if s != [] { NoneLater(s[..|s| - 1], access); }
  }

  /** Candidates with one stamp are in the same order in both. */
  ghost predicate Stable(before: seq<Candidate>, after: seq<Candidate>) {
    forall access: nat :: WithAccess(after, access) == WithAccess(before, access)
  }

  /** `candidates.sort_by_key(last_access)`: a stable sort by insertion. */
  method SortByAccess(candidates: seq<Candidate>) returns (sorted: seq<Candidate>)
    ensures SortedByAccess(sorted) && multiset(sorted) == multiset(candidates) && Stable(candidates, sorted)
  {
    sorted := [];
    for i := 0 to |candidates|
      invariant SortedByAccess(sorted) && multiset(sorted) == multiset(candidates[..i]) && Stable(candidates[..i], sorted)
    {
      var at := Slot(sorted, candidates[i].lastAccess);
      InsertSorted(sorted, at, candidates[i]);
      InsertStable(candidates[..i], sorted, at, candidates[i]);
      assert candidates[..i + 1] == candidates[..i] + [candidates[i]];
      sorted := sorted[..at] + [candidates[i]] + sorted[at..];
    }
    assert candidates[..|candidates|] == candidates;
  }

  lemma {:induction false} InsertStable(before: seq<Candidate>, sorted: seq<Candidate>, at: nat, c: Candidate)
    requires Stable(before, sorted) && at <= |sorted|
    requires forall j :: at <= j < |sorted| ==> c.lastAccess < sorted[j].lastAccess
    ensures Stable(before + [c], sorted[..at] + [c] + sorted[at..])
  {
    forall access: nat ensures WithAccess(sorted[..at] + [c] + sorted[at..], access) == WithAccess(before + [c], access) {
      assert sorted == sorted[..at] + sorted[at..];
      WithAccessConcat(sorted[..at], sorted[at..], access);
      WithAccessConcat(sorted[..at] + [c], sorted[at..], access);
      WithAccessConcat(sorted[..at], [c], access);
      WithAccessConcat(before, [c], access);
      assert [c][..0] == [];
      if c.lastAccess == access { NoneLater(sorted[at..], access); }
    }
  }

  lemma {:induction false} InsertSorted(sorted: seq<Candidate>, at: nat, c: Candidate)
    requires SortedByAccess(sorted) && at <= |sorted|
    requires forall j :: 0 <= j < at ==> sorted[j].lastAccess <= c.lastAccess
    requires forall j :: at <= j < |sorted| ==> c.lastAccess < sorted[j].lastAccess
    ensures SortedByAccess(sorted[..at] + [c] + sorted[at..])
    ensures multiset(sorted[..at] + [c] + sorted[at..]) == multiset(sorted) + multiset{c}
  {
    assert sorted == sorted[..at] + sorted[at..];
  }

  /** The access counter saturates. */
  function After(access: nat): nat { if access < U64_MAX then access + 1 else access }

  class DirCacheState {
    var pathToEntry: map<string, Entry>
    var idToPath: map<nat, string>
    var nextAccess: nat

    /** The two maps are inverse to each other. */
    ghost predicate Inverse()
      reads this
    {
      && (forall p :: p in pathToEntry ==> pathToEntry[p].dirId in idToPath && idToPath[pathToEntry[p].dirId] == p)
      && (forall id :: id in idToPath ==> idToPath[id] in pathToEntry && pathToEntry[idToPath[id]].dirId == id)
    }

    /** The access counter is ahead of every stamp until it saturates; the root is never
        stored; and the size stays within bounds. */
    ghost predicate Bounded()
      reads this
    {
      |pathToEntry| <= MAX_ENTRIES && Stamped() && "/" !in pathToEntry && 0 !in idToPath
    }

    ghost predicate Stamped()
      reads this
    {
      && nextAccess <= U64_MAX
      && (forall p :: p in pathToEntry ==> pathToEntry[p].lastAccess <= nextAccess)
      && (nextAccess < U64_MAX ==> forall p :: p in pathToEntry ==> pathToEntry[p].lastAccess < nextAccess)
    }

    ghost function Pairs(): map<string, nat>
      reads this
    {
      map p | p in pathToEntry :: pathToEntry[p].dirId
    }

    constructor ()
      ensures pathToEntry == map[] && idToPath == map[] && nextAccess == 1 && Inverse() && Bounded() && Pairs() == map[]
    {
      pathToEntry, idToPath, nextAccess := map[], map[], 1;
    }

    method NextAccess() returns (access: nat)
      modifies this`nextAccess
      ensures access == old(nextAccess) && nextAccess == After(old(nextAccess))
      ensures nextAccess == if access < 0xFFFF_FFFF_FFFF_FFFF then access + 1 else access
    {
      access := nextAccess;
      if nextAccess < U64_MAX { nextAccess := nextAccess + 1; }
    }

    method GetId(path: string) returns (r: Option<nat>)
      requires Bounded()
      modifies this
      ensures Bounded() && (old(Inverse()) ==> Inverse()) && Pairs() == old(Pairs()) && idToPath == old(idToPath)
      ensures path == "/" ==> r == Some(0)
      ensures path != "/" ==> r == if path in Pairs() then Some(Pairs()[path]) else None
      ensures path == "/" ==> unchanged(this)
      ensures path != "/" ==> nextAccess == After(old(nextAccess))
      ensures path != "/" && r.Some? ==> pathToEntry == old(pathToEntry)[path := Entry(r.value, old(nextAccess))]
      ensures r.None? ==> pathToEntry == old(pathToEntry)
    {
      if path == "/" { return Some(0); }
      var lastAccess := NextAccess();
      if path !in pathToEntry { return None; }
      r := Some(pathToEntry[path].dirId);
      pathToEntry := pathToEntry[path := Entry(pathToEntry[path].dirId, lastAccess)];
    }

    method GetPath(dirId: nat) returns (r: Option<string>)
      requires Bounded()
      modifies this
      ensures Bounded() && (old(Inverse()) ==> Inverse()) && Pairs() == old(Pairs()) && idToPath == old(idToPath)
      ensures dirId == 0 ==> r == Some("/")
      ensures dirId != 0 ==> r == if dirId in idToPath then Some(idToPath[dirId]) else None
      ensures dirId == 0 || r.None? ==> unchanged(this)
      ensures dirId != 0 && r.Some? ==> nextAccess == After(old(nextAccess))
      ensures dirId != 0 && r.Some? && r.value in old(pathToEntry) ==>
        pathToEntry == old(pathToEntry)[r.value := Entry(old(pathToEntry)[r.value].dirId, old(nextAccess))]
    {
      if dirId == 0 { return Some("/"); }
      if dirId !in idToPath { return None; }
      var path := idToPath[dirId];
      var lastAccess := NextAccess();
      if path in pathToEntry {
        pathToEntry := pathToEntry[path := Entry(pathToEntry[path].dirId, lastAccess)];
      }
      return Some(path);
    }

    /** Neither half of the pair is cached with another partner. */
    ghost predicate Fits(dirId: nat, path: string)
      reads this
    {
      && (path in pathToEntry ==> pathToEntry[path].dirId == dirId)
      && (dirId in idToPath ==> idToPath[dirId] == path)
    }

    /** What `remember` inserts before it trims. */
    ghost function Inserted(dirId: nat, path: string): map<string, Entry>
      reads this
    {
      pathToEntry[path := Entry(dirId, nextAccess)]
    }

    /** The inserting half of `remember`. */
    method Insert(dirId: nat, path: string)
      requires Bounded() && dirId != 0 && path != "/"
      modifies this
      ensures pathToEntry == old(Inserted(dirId, path)) && idToPath == old(idToPath)[dirId := path]
      ensures Stamped() && "/" !in pathToEntry && 0 !in idToPath
      ensures |pathToEntry| <= MAX_ENTRIES + 1 && nextAccess == After(old(nextAccess))
      ensures old(Inverse()) && old(Fits(dirId, path)) ==> Inverse()
      ensures old(nextAccess) < U64_MAX ==> Newest(pathToEntry, path)
    {
      var lastAccess := NextAccess();
      pathToEntry := pathToEntry[path := Entry(dirId, lastAccess)];
      idToPath := idToPath[dirId := path];
      GrowsByOne(old(pathToEntry), path, Entry(dirId, lastAccess));
    }

    /** Remembering a pair keeps the maps inverse if the pair fits, never leaves more than
        8192 entries, evicts down to 6144 when it must, evicts only entries accessed no
        later than every kept one, and not the pair just remembered. */
    method Remember(dirId: nat, path: string)
      requires Bounded()
      modifies this
      ensures Bounded()
      ensures dirId == 0 || path == "/" ==> pathToEntry == old(pathToEntry) && idToPath == old(idToPath)
      ensures dirId != 0 && path != "/" ==> var n := |old(Inserted(dirId, path))|; |pathToEntry| == if n <= 8192 then n else 6144
      ensures dirId != 0 && path != "/" && old(Inverse()) && old(Fits(dirId, path)) ==> Inverse()
      ensures dirId != 0 && path != "/" ==> Remembered(old(Inserted(dirId, path)), pathToEntry)
      ensures dirId != 0 && path != "/" && old(nextAccess) < U64_MAX ==> path in pathToEntry
      ensures nextAccess <= After(old(nextAccess))
    {
      if dirId == 0 || path == "/" { return; }
      Insert(dirId, path);
      if |pathToEntry| <= MAX_ENTRIES { return; }
      Trim(path);
    }

    /** The trimming half of `remember`: collect, sort by last access, drop the oldest. */
    method Trim(ghost newest: string)
      requires MAX_ENTRIES < |pathToEntry|
      modifies this`pathToEntry, this`idToPath
      ensures |pathToEntry| == TRIM_TO_ENTRIES
      ensures old(Inverse()) ==> Inverse()
      ensures Within(pathToEntry, old(pathToEntry)) && idToPath.Keys <= old(idToPath).Keys
      ensures OldestEvicted(old(pathToEntry), pathToEntry)
      ensures Newest(old(pathToEntry), newest) ==> newest in pathToEntry
    {
      var removeCount := |pathToEntry| - TRIM_TO_ENTRIES;
      var candidates := CollectCandidates();
      var sorted := SortByAccess(candidates);
      SameCandidates(pathToEntry, candidates, sorted);
      RemoveFirst(sorted, removeCount);
      EvictsOldest(old(pathToEntry), pathToEntry, sorted, removeCount);
      if Newest(old(pathToEntry), newest) { KeepsNewest(old(pathToEntry), pathToEntry, sorted, removeCount, newest); }
    }

    /** The trimming loop. */
    method RemoveFirst(sorted: seq<Candidate>, removeCount: nat)
      requires Lists(pathToEntry, sorted) && removeCount <= |sorted|
      modifies this`pathToEntry, this`idToPath
      ensures Rest(old(pathToEntry), pathToEntry, sorted, removeCount) && |pathToEntry| == |sorted| - removeCount
      ensures idToPath.Keys <= old(idToPath).Keys
      ensures old(Inverse()) ==> Inverse()
    {
      ghost var before := pathToEntry;
      for i := 0 to removeCount
        invariant Rest(before, pathToEntry, sorted, i) && |pathToEntry| == |sorted| - i
        invariant idToPath.Keys <= old(idToPath).Keys
        invariant old(Inverse()) ==> Inverse()
      {
        assert IsEntry(before, sorted[i]);
        ghost var was := pathToEntry;
        RemoveOne(sorted[i].path, sorted[i].dirId);
        RestShrinks(before, was, sorted, i);
      }
    }

    /** One round of the trimming loop. */
    method RemoveOne(path: string, dirId: nat)
      requires path in pathToEntry && pathToEntry[path].dirId == dirId
      modifies this`pathToEntry, this`idToPath
      ensures pathToEntry == old(pathToEntry) - {path} && idToPath == old(idToPath) - {dirId}
      ensures |pathToEntry| == |old(pathToEntry)| - 1
      ensures old(Inverse()) ==> Inverse()
    {
      pathToEntry := pathToEntry - {path};
      idToPath := idToPath - {dirId};
      ShrinksByOne(old(pathToEntry), path);
    }

    method CollectCandidates() returns (candidates: seq<Candidate>)
      ensures Lists(pathToEntry, candidates)
    {
      candidates := [];
      var left := pathToEntry.Keys;
      while left != {}
        invariant left <= pathToEntry.Keys
        invariant |candidates| + |left| == |pathToEntry|
        invariant forall i :: 0 <= i < |candidates| ==>
          candidates[i].path in pathToEntry && candidates[i].path !in left && IsEntry(pathToEntry, candidates[i])
        invariant forall i, j :: 0 <= i < j < |candidates| ==> candidates[i].path != candidates[j].path
        invariant forall p :: p in pathToEntry && p !in left ==> exists i :: 0 <= i < |candidates| && candidates[i].path == p
        decreases |left|
      {
        var p :| p in left;
        ghost var before := candidates;
        candidates := candidates + [Candidate(p, pathToEntry[p].dirId, pathToEntry[p].lastAccess)];
        left := left - {p};
        forall q | q in pathToEntry && q !in left ensures exists i :: 0 <= i < |candidates| && candidates[i].path == q {
          if q == p {
            assert candidates[|before|].path == q;
          } else {
            var i :| 0 <= i < |before| && before[i].path == q;
            assert candidates[i].path == q;
          }
        }
      }
    }

    /** Forgetting a cached pair, or one of which neither half is cached, keeps the maps inverse. */
    method Forget(dirId: nat, path: string)
      requires Bounded()
      modifies this`pathToEntry, this`idToPath
      ensures Bounded()
      ensures dirId == 0 || path == "/" ==> pathToEntry == old(pathToEntry) && idToPath == old(idToPath)
      ensures dirId != 0 && path != "/" ==>
        && pathToEntry == old(pathToEntry) - {path} && idToPath == old(idToPath) - {dirId}
        && (old(Inverse()) && old(Fits(dirId, path)) ==> Inverse())
    {
      if dirId == 0 || path == "/" { return; }
      if path in pathToEntry { ShrinksByOne(pathToEntry, path); } else { assert pathToEntry - {path} == pathToEntry; }
      pathToEntry := pathToEntry - {path};
      idToPath := idToPath - {dirId};
    }
  }

  ghost predicate IsEntry(m: map<string, Entry>, c: Candidate) {
    c.path in m && m[c.path] == Entry(c.dirId, c.lastAccess)
  }

  /** `cs` lists the entries of `m`, each once. */
  ghost predicate Lists(m: map<string, Entry>, cs: seq<Candidate>) {
    && |cs| == |m|
    && (forall i :: 0 <= i < |cs| ==> IsEntry(m, cs[i]))
    && (forall i, j :: 0 <= i < j < |cs| ==> cs[i].path != cs[j].path)
    && (forall p :: p in m ==> exists i :: 0 <= i < |cs| && cs[i].path == p)
  }

  /** `m` keeps entries of `before` as they were. */
  ghost predicate Within(m: map<string, Entry>, before: map<string, Entry>) {
    forall p :: p in m ==> p in before && m[p] == before[p]
  }

  /** Every evicted entry was accessed no later than every kept one. */
  ghost predicate OldestEvicted(before: map<string, Entry>, after: map<string, Entry>) {
    forall p, q :: p in before && p !in after && q in after ==> before[p].lastAccess <= after[q].lastAccess
  }

  ghost predicate Newest(m: map<string, Entry>, path: string) {
    path in m && forall p :: p in m && p != path ==> m[p].lastAccess < m[path].lastAccess
  }

  /** What `remember` leaves of the entries with the new one inserted. */
  ghost predicate Remembered(inserted: map<string, Entry>, after: map<string, Entry>) {
    if |inserted| <= MAX_ENTRIES then after == inserted
    else |after| == TRIM_TO_ENTRIES && Within(after, inserted) && OldestEvicted(inserted, after)
  }

  /** What is left of `before` without the first `n` of its listed entries. */
  ghost predicate Rest(before: map<string, Entry>, after: map<string, Entry>, sorted: seq<Candidate>, n: nat)
    requires n <= |sorted|
  {
    && Within(after, before)
    && forall p :: p in before ==> (p in after <==> forall j :: 0 <= j < n ==> sorted[j].path != p)
  }

  lemma {:induction false} RestShrinks(before: map<string, Entry>, after: map<string, Entry>, sorted: seq<Candidate>, n: nat)
    requires n < |sorted| && Rest(before, after, sorted, n)
    ensures Rest(before, after - {sorted[n].path}, sorted, n + 1)
  {}

  lemma {:induction false} EvictsOldest(before: map<string, Entry>, after: map<string, Entry>, sorted: seq<Candidate>, n: nat)
    requires Lists(before, sorted) && SortedByAccess(sorted) && n < |sorted| && Rest(before, after, sorted, n)
    ensures OldestEvicted(before, after)
  {
    forall p, q | p in before && p !in after && q in after ensures before[p].lastAccess <= after[q].lastAccess {
      var i :| 0 <= i < n && sorted[i].path == p;
      var j :| 0 <= j < |sorted| && sorted[j].path == q;
      assert IsEntry(before, sorted[i]) && IsEntry(before, sorted[j]);
    }
  }

  lemma {:induction false} KeepsNewest(before: map<string, Entry>, after: map<string, Entry>, sorted: seq<Candidate>, n: nat, newest: string)
    requires Lists(before, sorted) && SortedByAccess(sorted) && n < |sorted| && Rest(before, after, sorted, n)
    requires Newest(before, newest)
    ensures newest in after
  {
    var last := |sorted| - 1;
    assert IsEntry(before, sorted[last]);
    forall i | 0 <= i < n ensures sorted[i].path != newest {
      assert IsEntry(before, sorted[i]) && sorted[i].path != sorted[last].path;
    }
  }

  lemma {:induction false} GrowsByOne(m: map<string, Entry>, p: string, e: Entry)
    ensures |m[p := e]| <= |m| + 1
  {
    assert m[p := e].Keys == m.Keys + {p};
  }

  lemma {:induction false} ShrinksByOne(m: map<string, Entry>, p: string)
    requires p in m
    ensures |m - {p}| == |m| - 1
  {
    assert (m - {p}).Keys == m.Keys - {p};
  }

  /** Sorting lists the same entries, each once. */
  lemma {:induction false} SameCandidates(m: map<string, Entry>, cs: seq<Candidate>, sorted: seq<Candidate>)
    requires Lists(m, cs) && multiset(sorted) == multiset(cs)
    ensures Lists(m, sorted)
  {
    assert |sorted| == |multiset(sorted)| == |cs|;
    forall i | 0 <= i < |sorted| ensures IsEntry(m, sorted[i]) {
      assert sorted[i] in multiset(cs);
      var k :| 0 <= k < |cs| && cs[k] == sorted[i];
    }
    forall p | p in m ensures exists i :: 0 <= i < |sorted| && sorted[i].path == p {
      var k :| 0 <= k < |cs| && cs[k].path == p;
      assert cs[k] in multiset(sorted);
      var i :| 0 <= i < |sorted| && sorted[i] == cs[k];
    }
    Distinct(cs);
    forall i, j | 0 <= i < j < |sorted| ensures sorted[i].path != sorted[j].path {
      if sorted[i].path == sorted[j].path {
        assert IsEntry(m, sorted[i]) && IsEntry(m, sorted[j]);
        assert sorted[i] == sorted[j];
        Twice(sorted, i, j);
      }
    }
  }

  lemma {:induction false} Distinct(cs: seq<Candidate>)
    requires forall i, j :: 0 <= i < j < |cs| ==> cs[i].path != cs[j].path
    ensures forall c :: multiset(cs)[c] <= 1
  {
    if cs != [] {
      var init, last := cs[..|cs| - 1], cs[|cs| - 1];
      Distinct(init);
      assert cs == init + [last];
      assert last !in init by {
        forall i | 0 <= i < |init| ensures init[i] != last { assert cs[i].path != cs[|cs| - 1].path; }
      }
      assert multiset(cs) == multiset(init) + multiset{last};
    }
  }

  lemma {:induction false} Twice(s: seq<Candidate>, i: nat, j: nat)
    requires i < j < |s| && s[i] == s[j]
    ensures multiset(s)[s[i]] >= 2
  {
    assert s == s[..i] + [s[i]] + s[i + 1..j] + [s[j]] + s[j + 1..];
  }
}
