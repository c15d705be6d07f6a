/**
 The pruning and renaming rule of `clean_directory`
 (src/lib/util/logsystem.py): list the directory newest first, delete from
 the oldest end until at most `limit` files remain, then strip one
 `LATEST_` prefix from each remaining name.

 The directory is a sequence of entries with their modification times in
 `os.listdir` order; deletions and renames are returned rather than
 performed.
 */
module LogSystem {
  import opened PyStrings

  datatype DirEntry = DirEntry(name: string, mtime: int)

  const LatestPrefix := "LATEST_"

  predicate Ascending(s: seq<DirEntry>) {
    forall i, j :: 0 <= i < j < |s| ==> s[i].mtime <= s[j].mtime
  }

  predicate Descending(s: seq<DirEntry>) {
    forall i, j :: 0 <= i < j < |s| ==> s[i].mtime >= s[j].mtime
  }

  /** Inserts `e` into an ascending run after every entry that is not newer,
      which keeps `list.sort` stable. */
  function Insert(sorted: seq<DirEntry>, e: DirEntry): (r: seq<DirEntry>)
    requires Ascending(sorted)
    ensures Ascending(r)
    ensures multiset(r) == multiset(sorted) + multiset{e}
    ensures |r| == |sorted| + 1 && (r[0] == e || (|sorted| > 0 && r[0] == sorted[0]))
    decreases |sorted|
  {
    if sorted == [] then [e]
    else if e.mtime < sorted[0].mtime then [e] + sorted
    else
      var rest := Insert(sorted[1..], e);
      var r := [sorted[0]] + rest;
      assert multiset(sorted) == multiset{sorted[0]} + multiset(sorted[1..]) by {
        assert sorted == [sorted[0]] + sorted[1..];
      }
      assert Ascending(r) by {
        forall i, j | 0 <= i < j < |r| ensures r[i].mtime <= r[j].mtime {
          if i == 0 {
            assert sorted[0].mtime <= rest[0].mtime <= rest[j - 1].mtime;
          }
        }
      }
      r
  }

  /** `files.sort(key=getmtime)`: ascending by modification time. */
  function SortByMtime(files: seq<DirEntry>): (r: seq<DirEntry>)
    ensures Ascending(r)
    ensures multiset(r) == multiset(files)
    decreases |files|
  {
    if files == [] then []
    else
      assert files == files[..|files| - 1] + [files[|files| - 1]];
      Insert(SortByMtime(files[..|files| - 1]), files[|files| - 1])
  }

  function Reverse<T>(s: seq<T>): (r: seq<T>)
    ensures |r| == |s| && forall i :: 0 <= i < |s| ==> r[i] == s[|s| - 1 - i]
    decreases |s|
  {
    if s == [] then [] else Reverse(s[1..]) + [s[0]]
  }

  /** The listing after `sort` and `reverse`. */
  function Listing(files: seq<DirEntry>): seq<DirEntry> {
    Reverse(SortByMtime(files))
  }

  /** The listing is newest first and holds exactly the directory's entries. */
  lemma ListingNewestFirst(files: seq<DirEntry>)
    ensures Descending(Listing(files))
    ensures multiset(Listing(files)) == multiset(files)
  {
    var sorted := SortByMtime(files);
    var r := Listing(files);
    assert forall i :: 0 <= i < |r| ==> r[i] == sorted[|sorted| - 1 - i];
    assert multiset(r) == multiset(sorted) by {
      ReverseMultiset(sorted);
    }
  }

  lemma {:induction false} ReverseMultiset<T>(s: seq<T>)
    ensures multiset(Reverse(s)) == multiset(s)
    decreases |s|
  {
    if s != [] {
      ReverseMultiset(s[1..]);
      assert s == [s[0]] + s[1..];
    }
  }

  /** Deletions end normally or with the `IndexError` of popping an empty
      list; `removed` lists what was deleted, in deletion order. */
  datatype Pruning =
    | Pruned(kept: seq<DirEntry>, removed: seq<DirEntry>)
    | PopFailed(removed: seq<DirEntry>)

  /** `while len(files) > limit: os.remove(files.pop())`. */
  function Prune(files: seq<DirEntry>, limit: int): (r: Pruning)
    ensures r.Pruned? <==> limit >= 0
    decreases |files|
  {
    if |files| <= limit then Pruned(files, [])
    else if files == [] then PopFailed([])
    else
      var last := files[|files| - 1];
      match Prune(files[..|files| - 1], limit)
      case Pruned(kept, removed) => Pruned(kept, [last] + removed)
      case PopFailed(removed) => PopFailed([last] + removed)
  }

  /** With a non-negative limit, the first `limit` entries stay and the rest
      go, last first; a negative limit deletes everything and then fails. */
  lemma {:induction false} PruneKeepsPrefix(files: seq<DirEntry>, limit: int)
    ensures limit >= 0 ==>
      var k := if |files| <= limit then |files| else limit;
      Prune(files, limit) == Pruned(files[..k], Reverse(files[k..]))
    ensures limit < 0 ==> Prune(files, limit) == PopFailed(Reverse(files))
    decreases |files|
  {
    if |files| > limit && files != [] {
      var front, last := files[..|files| - 1], files[|files| - 1];
      PruneKeepsPrefix(front, limit);
      if limit >= 0 {
        var k := if |files| <= limit then |files| else limit;
        assert files[..k] == front[..k];
        assert files[k..] == front[k..] + [last];
        assert Reverse(files[k..]) == [last] + Reverse(front[k..]) by {
          ReverseAppend(front[k..], last);
        }
      } else {
        assert files == front + [last];
        ReverseAppend(front, last);
      }
    }
  }

  lemma ReverseAppend<T>(s: seq<T>, x: T)
    ensures Reverse(s + [x]) == [x] + Reverse(s)
  {
    var a, b := Reverse(s + [x]), [x] + Reverse(s);
    assert |a| == |b|;
    forall i | 0 <= i < |a| ensures a[i] == b[i] {
      if i > 0 {
        assert a[i] == (s + [x])[|s| - i];
      }
    }
  }

  /** What `clean_directory` does: the names it deletes, in order, the
      renames it performs, and whether it ended in `IndexError`. */
  datatype Cleaning = Cleaning(removed: seq<string>, renamed: seq<(string, string)>, failed: bool)

  function Names(entries: seq<DirEntry>): (r: seq<string>)
    ensures |r| == |entries| && forall i :: 0 <= i < |r| ==> r[i] == entries[i].name
  {
    seq(|entries|, i requires 0 <= i < |entries| => entries[i].name)
  }

  /** The renaming loop over the kept names, in listing order. */
  function Renames(kept: seq<string>): seq<(string, string)>
    decreases |kept|
  {
    if kept == [] then []
    else
      var name := kept[0];
      (if StartsWith(name, LatestPrefix) then [(name, RemovePrefix(name, LatestPrefix))] else []) + Renames(kept[1..])
  }

  /** Every rename is of a kept name carrying the prefix and drops exactly
      one copy of it; every kept name carrying the prefix is renamed. */
  lemma {:induction false} RenamesStripOnePrefix(kept: seq<string>)
    ensures forall p :: p in Renames(kept) ==> p.0 in kept && StartsWith(p.0, LatestPrefix) && LatestPrefix + p.1 == p.0
    ensures forall name :: name in kept && StartsWith(name, LatestPrefix) ==> (name, name[|LatestPrefix|..]) in Renames(kept)
    ensures |Renames(kept)| <= |kept|
    decreases |kept|
  {
    if kept != [] {
      RenamesStripOnePrefix(kept[1..]);
      assert forall name :: name in kept ==> name == kept[0] || name in kept[1..];
    }
  }

  function CleanDirectory(files: seq<DirEntry>, limit: int, renameFromLatest: bool): Cleaning {
    match Prune(Listing(files), limit)
    case PopFailed(removed) => Cleaning(Names(removed), [], true)
    case Pruned(kept, removed) =>
      Cleaning(Names(removed), if renameFromLatest then Renames(Names(kept)) else [], false)
  }

  /** The number of deletions and the failure case; nothing is renamed
      unless asked for. */
  lemma CleanDirectoryCounts(files: seq<DirEntry>, limit: int, renameFromLatest: bool)
    ensures
      var c := CleanDirectory(files, limit, renameFromLatest);
      && (limit >= 0 ==> !c.failed && |c.removed| == if |files| > limit then |files| - limit else 0)
      && (limit < 0 ==> c.failed && |c.removed| == |files| && c.renamed == [])
      && (!renameFromLatest ==> c.renamed == [])
  {
    var listing := Listing(files);
    ListingNewestFirst(files);
    assert |listing| == |files| by {
      assert |multiset(listing)| == |multiset(files)|;
    }
    PruneKeepsPrefix(listing, limit);
  }

  /** Every entry kept is at least as new as every entry deleted. */
  lemma KeptAreNewest(files: seq<DirEntry>, limit: int)
    requires limit >= 0
    ensures
      var p := Prune(Listing(files), limit);
      && p.Pruned?
      && forall i, j :: 0 <= i < |p.kept| && 0 <= j < |p.removed| ==> p.kept[i].mtime >= p.removed[j].mtime
  {
    var listing := Listing(files);
    ListingNewestFirst(files);
    PruneKeepsPrefix(listing, limit);
    SplitOrdered(listing, if |listing| <= limit then |listing| else limit);
  }

  lemma SplitOrdered(s: seq<DirEntry>, k: nat)
    requires Descending(s) && k <= |s|
    ensures
      var kept, removed := s[..k], Reverse(s[k..]);
      forall i, j :: 0 <= i < |kept| && 0 <= j < |removed| ==> kept[i].mtime >= removed[j].mtime
  {
    var kept, removed := s[..k], Reverse(s[k..]);
    forall i, j | 0 <= i < |kept| && 0 <= j < |removed| ensures kept[i].mtime >= removed[j].mtime {
      assert removed[j] == s[k..][|s| - k - 1 - j] == s[|s| - 1 - j];
    }
  }

  /** The kept and the deleted entries together are the directory. */
  lemma PruneLosesNothing(files: seq<DirEntry>, limit: int)
    requires limit >= 0
    ensures
      var p := Prune(Listing(files), limit);
      p.Pruned? && multiset(p.kept) + multiset(p.removed) == multiset(files)
  {
    var listing := Listing(files);
    ListingNewestFirst(files);
    PruneKeepsPrefix(listing, limit);
    SplitMultiset(listing, if |listing| <= limit then |listing| else limit);
  }

  lemma SplitMultiset<T>(s: seq<T>, k: nat)
    requires k <= |s|
    ensures multiset(s[..k]) + multiset(Reverse(s[k..])) == multiset(s)
  {
    ReverseMultiset(s[k..]);
    assert s == s[..k] + s[k..];
  }

  /** A directory at or under the limit loses nothing. */
  lemma NothingRemovedUnderLimit(files: seq<DirEntry>, limit: int, renameFromLatest: bool)
    requires |files| <= limit
    ensures CleanDirectory(files, limit, renameFromLatest).removed == []
    ensures !CleanDirectory(files, limit, renameFromLatest).failed
  {
    CleanDirectoryCounts(files, limit, renameFromLatest);
  }

  /** Only kept entries are renamed, each losing one `LATEST_`, and every
      kept name carrying it is renamed. */
  lemma RenamedAreKept(files: seq<DirEntry>, limit: int)
    requires limit >= 0
    ensures
      var p := Prune(Listing(files), limit);
      var c := CleanDirectory(files, limit, true);
      && p.Pruned?
      && (forall q :: q in c.renamed ==> q.0 in Names(p.kept) && LatestPrefix + q.1 == q.0)
      && (forall i :: 0 <= i < |p.kept| && StartsWith(p.kept[i].name, LatestPrefix) ==>
            (p.kept[i].name, p.kept[i].name[|LatestPrefix|..]) in c.renamed)
  {
    var p := Prune(Listing(files), limit);
    var names := Names(p.kept);
    RenamesStripOnePrefix(names);
    forall i | 0 <= i < |p.kept| && StartsWith(p.kept[i].name, LatestPrefix)
      ensures (p.kept[i].name, p.kept[i].name[|LatestPrefix|..]) in Renames(names)
    {
      assert names[i] == p.kept[i].name;
    }
  }
}
