/** Backup retention: after each backup both bots list the `backups`
    directory, sort the entries by file name and, once there are too many,
    remove the first one — the oldest, since names carry the unix time. */
module Backup {
  import opened Wrappers
  import opened Text

  /** A path as its components. */
  type Path = seq<string>

  const BackupFolder: Path := [".", "backups"]

  /** The newer bot keeps 7 * 4 backups (a week at one every six hours); the
      older one keeps 24. */
  const NEWER_LIMIT: nat := 7 * 4
  const OLDER_LIMIT: nat := 24

  predicate SortedNames(s: seq<string>) {
    forall i, j :: 0 <= i < j < |s| ==> LexLeq(s[i], s[j])
  }

  /** Inserts a name into a sorted list. */
  function InsertName(x: string, s: seq<string>): (r: seq<string>)
    requires SortedNames(s)
    ensures SortedNames(r)
    ensures multiset(r) == multiset(s) + multiset{x}
    ensures |r| == |s| + 1
  {
    if |s| == 0 then [x]
    else if LexLeq(x, s[0]) then
      forall j | 0 <= j < |s| ensures LexLeq(x, s[j]) {
        if j > 0 {
          LexLeqTransitive(x, s[0], s[j]);
        }
      }
      [x] + s
    else
      LexLeqTotal(x, s[0]);
      var rest := InsertName(x, s[1..]);
      assert s == [s[0]] + s[1..];
      forall j | 0 <= j < |rest| ensures LexLeq(s[0], rest[j]) {
        assert rest[j] in multiset(rest);
        if rest[j] != x {
          assert rest[j] in multiset(s[1..]);
          var k :| 0 <= k < |s[1..]| && s[1..][k] == rest[j];
          assert s[k + 1] == rest[j];
        }
      }
      [s[0]] + rest
  }

  /** `sort_by_cached_key(file_name)`: a sorted permutation of the names. */
  function SortNames(names: seq<string>): (r: seq<string>)
    ensures SortedNames(r)
    ensures multiset(r) == multiset(names)
    ensures |r| == |names|
  {
    if |names| == 0 then []
    else
      assert names == [names[0]] + names[1..];
      InsertName(names[0], SortNames(names[1..]))
  }

  /** The name removed when `names` are listed and `limit` are kept: the
      first after sorting, only when there are more than `limit`. */
  function OldestOver(names: seq<string>, limit: nat): (r: Option<string>)
    ensures r.Some? <==> |names| > limit
    ensures r.Some? ==> r.value in names && forall n :: n in names ==> LexLeq(r.value, n)
  {
    if |names| > limit then
      var sorted := SortNames(names);
      assert sorted[0] in multiset(names);
      forall n | n in names ensures LexLeq(sorted[0], n) {
        assert n in multiset(sorted);
        var j :| 0 <= j < |sorted| && sorted[j] == n;
        if j > 0 {
          assert LexLeq(sorted[0], sorted[j]);
        } else {
          LexLeqTotal(n, n);
        }
      }
      Some(sorted[0])
    else None
  }

  /** The newer retention: the oldest entry, joined to the backups folder. */
  function NewerRemoval(names: seq<string>): (r: Option<Path>)
    ensures r.Some? <==> |names| > NEWER_LIMIT
    ensures r.Some? ==> exists n :: n in names && r.value == BackupFolder + [n]
  {
    match OldestOver(names, NEWER_LIMIT)
    case None => None
    case Some(n) => Some(BackupFolder + [n])
  }

  /** The older retention as written: the bare file name is removed, which
      resolves against the working directory, not the backups folder. */
  function OlderRemovalAsWritten(names: seq<string>): (r: Option<Path>)
    ensures r.Some? <==> |names| > OLDER_LIMIT
  {
    match OldestOver(names, OLDER_LIMIT)
    case None => None
    case Some(n) => Some([n])
  }

  /** The older retention as evidently intended: the same entry, inside the
      backups folder. */
  function OlderRemoval(names: seq<string>): (r: Option<Path>)
    ensures r.Some? <==> |names| > OLDER_LIMIT
    ensures r.Some? ==> exists n :: n in names && r.value == BackupFolder + [n]
  {
    match OldestOver(names, OLDER_LIMIT)
    case None => None
    case Some(n) => Some(BackupFolder + [n])
  }

  /** The backup files present when the folder lists `names`. */
  function BackupFiles(names: seq<string>): set<Path> {
    set n | n in names :: BackupFolder + [n]
  }

  /** Removing a path, if any. */
  function RemovePath(files: set<Path>, p: Option<Path>): set<Path> {
    if p.Some? then files - {p.value} else files
  }

  /** With the intended path, one backup — the one sorting first — is
      removed once there are more than the limit, and no other. */
  lemma OlderRemovalRemovesOldest(names: seq<string>)
    requires |names| > OLDER_LIMIT
    ensures var n := OldestOver(names, OLDER_LIMIT).value;
            RemovePath(BackupFiles(names), OlderRemoval(names)) == BackupFiles(names) - {BackupFolder + [n]}
  {
  }

  /** As written, the removal never touches the backups folder: every backup
      file survives, so the folder is never trimmed. */
  lemma OlderRemovalAsWrittenKeepsAll(names: seq<string>)
    ensures RemovePath(BackupFiles(names), OlderRemovalAsWritten(names)) == BackupFiles(names)
  {
    if OlderRemovalAsWritten(names).Some? {
      var p := OlderRemovalAsWritten(names).value;
      assert |p| == 1;
      assert p !in BackupFiles(names);
    }
  }

  /** The newer retention trims the folder by exactly the oldest backup. */
  lemma NewerRemovalRemovesOldest(names: seq<string>)
    requires |names| > NEWER_LIMIT
    ensures var n := OldestOver(names, NEWER_LIMIT).value;
            RemovePath(BackupFiles(names), NewerRemoval(names)) == BackupFiles(names) - {BackupFolder + [n]}
  {
  }
}
