/** Snapshots and the difference between two of them
    (crates/savr-core/src/snapshot.rs).

    A snapshot's vector is the values of an ordered map keyed by path, so it is
    strictly sorted by path.  `Build` and `Diff` are written over that vector, as
    the source writes them; the lemmas lift them to the map the vector denotes,
    which is what the rest of the project works with. */
module Snapshots {
  import opened Types

  datatype FileRow = FileRow(relPath: Path, entry: FileEntry)

  /** The files a vector of rows denotes (a later row wins). */
  function ByPath(rows: seq<FileRow>): FileSet {
    if rows == [] then map[]
    else ByPath(rows[..|rows| - 1])[rows[|rows| - 1].relPath := rows[|rows| - 1].entry]
  }

  // ---- byte-wise path order ----

  predicate Less(a: Path, b: Path) {
    b != [] && (a == [] || a[0] < b[0] || (a[0] == b[0] && Less(a[1..], b[1..])))
  }

  lemma {:induction false} LessTotal(a: Path, b: Path)
    ensures Less(a, b) || a == b || Less(b, a)
  {
    if a != [] && b != [] && a[0] == b[0] {
      LessTotal(a[1..], b[1..]);
      assert a == [a[0]] + a[1..] && b == [b[0]] + b[1..];
    }
  }

  lemma {:induction false} LessTransitive(a: Path, b: Path, c: Path)
    requires Less(a, b) && Less(b, c)
    ensures Less(a, c)
  {
    if a != [] && a[0] == b[0] == c[0] {
      LessTransitive(a[1..], b[1..], c[1..]);
    }
  }

  lemma {:induction false} LessIrreflexive(a: Path)
    ensures !Less(a, a)
  {
    if a != [] { LessIrreflexive(a[1..]); }
  }

  predicate Sorted(rows: seq<FileRow>) {
    forall i, j :: 0 <= i < j < |rows| ==> Less(rows[i].relPath, rows[j].relPath)
  }

  /** In a sorted vector the last path is above, and so differs from, the rest. */
  lemma SortedLast(rows: seq<FileRow>)
    requires Sorted(rows) && rows != []
    ensures Sorted(rows[..|rows| - 1])
    ensures forall k :: 0 <= k < |rows| - 1 ==>
      Less(rows[k].relPath, rows[|rows| - 1].relPath) && rows[k].relPath != rows[|rows| - 1].relPath
  {
    LessIrreflexive(rows[|rows| - 1].relPath);
  }

  function PathsOf(rows: seq<FileRow>): set<Path> {
    set i | 0 <= i < |rows| :: rows[i].relPath
  }

  lemma {:induction false} ByPathKeys(rows: seq<FileRow>)
    ensures ByPath(rows).Keys == PathsOf(rows)
  {
    if rows != [] {
      var n := |rows| - 1;
      ByPathKeys(rows[..n]);
      assert PathsOf(rows) == PathsOf(rows[..n]) + {rows[n].relPath} by {
        forall p | p in PathsOf(rows) ensures p in PathsOf(rows[..n]) + {rows[n].relPath} {
          var i :| 0 <= i < |rows| && rows[i].relPath == p;
          if i < n { assert rows[..n][i].relPath == p; }
        }
        forall p | p in PathsOf(rows[..n]) ensures p in PathsOf(rows) {
          var i :| 0 <= i < n && rows[..n][i].relPath == p;
          assert rows[i].relPath == p;
        }
      }
    }
  }

  lemma FreshLastPath(front: seq<FileRow>, r: FileRow)
    requires forall k :: 0 <= k < |front| ==> front[k].relPath != r.relPath
    ensures r.relPath !in ByPath(front)
  {
    ByPathKeys(front);
    assert r.relPath !in PathsOf(front);
  }

  lemma ByPathSnoc(front: seq<FileRow>, r: FileRow)
    ensures ByPath(front + [r]) == ByPath(front)[r.relPath := r.entry]
  {
    assert (front + [r])[..|front|] == front;
  }

  /** Dropping the greatest row drops exactly its path. */
  lemma ByPathFront(rows: seq<FileRow>)
    requires Sorted(rows) && rows != []
    ensures ByPath(rows[..|rows| - 1]) == ByPath(rows) - {rows[|rows| - 1].relPath}
  {
    var front, r := rows[..|rows| - 1], rows[|rows| - 1];
    SortedLast(rows);
    FreshLastPath(front, r);
    assert rows == front + [r];
    ByPathSnoc(front, r);
    var files := ByPath(front);
    assert files[r.relPath := r.entry] - {r.relPath} == files;
  }

  /** In a sorted vector a row belongs to it exactly when it is the entry its
      path denotes. */
  lemma {:induction false} ByPathRow(rows: seq<FileRow>, r: FileRow)
    requires Sorted(rows)
    ensures r in rows <==> r.relPath in ByPath(rows) && ByPath(rows)[r.relPath] == r.entry
  {
    if rows != [] {
      var n := |rows| - 1;
      SortedLast(rows);
      ByPathFront(rows);
      ByPathRow(rows[..n], r);
      assert rows == rows[..n] + [rows[n]];
    }
  }

  /** The greatest path is determined by the set of files. */
  lemma GreatestAgree(a: seq<FileRow>, b: seq<FileRow>)
    requires Sorted(a) && Sorted(b) && ByPath(a) == ByPath(b) && a != [] && b != []
    ensures a[|a| - 1] == b[|b| - 1]
  {
    var x, y := a[|a| - 1], b[|b| - 1];
    ByPathRow(a, x);
    ByPathRow(b, x);
    ByPathRow(a, y);
    ByPathRow(b, y);
    SortedLast(a);
    SortedLast(b);
    if x != y {
      assert Less(y.relPath, x.relPath) && Less(x.relPath, y.relPath);
      LessTransitive(x.relPath, y.relPath, x.relPath);
      LessIrreflexive(x.relPath);
    }
  }

  /** The vector is canonical: two sorted vectors of the same files are the same
      vector, so equal save sets serialise identically on every machine. */
  lemma {:induction false} SortedCanonical(a: seq<FileRow>, b: seq<FileRow>)
    requires Sorted(a) && Sorted(b) && ByPath(a) == ByPath(b)
    ensures a == b
  {
    if a == [] || b == [] {
      if a != [] { ByPathRow(a, a[0]); }
      if b != [] { ByPathRow(b, b[0]); }
    } else {
      GreatestAgree(a, b);
      ByPathFront(a);
      ByPathFront(b);
      SortedLast(a);
      SortedLast(b);
      SortedCanonical(a[..|a| - 1], b[..|b| - 1]);
      assert a == a[..|a| - 1] + [a[|a| - 1]] && b == b[..|b| - 1] + [b[|b| - 1]];
    }
  }

  /** Ordered-map insertion: replace the row of an equal path or slot a new one in. */
  function Insert(rows: seq<FileRow>, r: FileRow): seq<FileRow> {
    if rows == [] then [r]
    else
      var last := rows[|rows| - 1];
      if last.relPath == r.relPath then rows[..|rows| - 1] + [r]
      else if Less(last.relPath, r.relPath) then rows + [r]
      else Insert(rows[..|rows| - 1], r) + [last]
  }

  lemma {:induction false} InsertDenotes(rows: seq<FileRow>, r: FileRow)
    ensures ByPath(Insert(rows, r)) == ByPath(rows)[r.relPath := r.entry]
  {
    if rows != [] {
      var front, last := rows[..|rows| - 1], rows[|rows| - 1];
      if last.relPath == r.relPath {
        ByPathSnoc(front, r);
      } else if Less(last.relPath, r.relPath) {
        ByPathSnoc(rows, r);
      } else {
        InsertDenotes(front, r);
        ByPathSnoc(Insert(front, r), last);
      }
    }
  }

  lemma {:induction false} InsertMembers(rows: seq<FileRow>, r: FileRow)
    ensures forall x :: x in Insert(rows, r) ==> x == r || x in rows
  {
    if rows != [] { InsertMembers(rows[..|rows| - 1], r); }
  }

  lemma SortedSnoc(front: seq<FileRow>, r: FileRow)
    requires Sorted(front) && forall x :: x in front ==> Less(x.relPath, r.relPath)
    ensures Sorted(front + [r])
  {
  }

  lemma {:induction false} InsertSorted(rows: seq<FileRow>, r: FileRow)
    requires Sorted(rows)
    ensures Sorted(Insert(rows, r))
  {
    if rows != [] {
      var front, last := rows[..|rows| - 1], rows[|rows| - 1];
      SortedLast(rows);
      if last.relPath == r.relPath {
        SortedSnoc(front, r);
      } else if Less(last.relPath, r.relPath) {
        forall x | x in rows ensures Less(x.relPath, r.relPath) {
          if x != last { LessTransitive(x.relPath, last.relPath, r.relPath); }
        }
        SortedSnoc(rows, r);
      } else {
        LessTotal(last.relPath, r.relPath);
        InsertSorted(front, r);
        InsertMembers(front, r);
        SortedSnoc(Insert(front, r), last);
      }
    }
  }

  /** Visiting order and overlapping globs do not matter: inserting the visited
      files that are not excluded leaves the sorted vector of exactly those files. */
  method Build(visited: seq<FileRow>, excluded: Path -> bool) returns (files: seq<FileRow>)
    ensures Sorted(files)
    ensures ByPath(files) == ByPath(Included(visited, excluded))
    ensures forall p :: p in ByPath(files) <==>
      !excluded(p) && exists i :: 0 <= i < |visited| && visited[i].relPath == p
  {
    files := [];
    for i := 0 to |visited|
      invariant Sorted(files)
      invariant ByPath(files) == ByPath(Included(visited[..i], excluded))
    {
      assert visited[..i + 1][..i] == visited[..i];
      var r := visited[i];
      if !excluded(r.relPath) {
        InsertSorted(files, r);
        InsertDenotes(files, r);
        files := Insert(files, r);
        ByPathSnoc(Included(visited[..i], excluded), r);
      }
    }
    assert visited[..|visited|] == visited;
    IncludedPaths(visited, excluded);
  }

  /** The paths of a snapshot are those visited and not excluded. */
  lemma {:induction false} IncludedPaths(visited: seq<FileRow>, excluded: Path -> bool)
    ensures forall p :: p in ByPath(Included(visited, excluded)) <==>
      !excluded(p) && exists i :: 0 <= i < |visited| && visited[i].relPath == p
  {
    if visited != [] {
      var front, r := visited[..|visited| - 1], visited[|visited| - 1];
      IncludedPaths(front, excluded);
      ByPathSnoc(Included(front, excluded), r);
      assert forall i :: 0 <= i < |front| ==> visited[i] == front[i];
      assert visited[|visited| - 1].relPath == r.relPath;
    }
  }

  function Included(visited: seq<FileRow>, excluded: Path -> bool): seq<FileRow> {
    if visited == [] then []
    else
      var rest := Included(visited[..|visited| - 1], excluded);
      var r := visited[|visited| - 1];
      if excluded(r.relPath) then rest else rest + [r]
  }

  // ---- diff ----

  datatype RowDiff = RowDiff(changed: seq<FileRow>, deleted: seq<Path>)

  predicate IsChanged(prev: FileSet, p: Path, e: FileEntry) {
    p !in prev || prev[p].hash != e.hash
  }

  /** Paths added or whose content hash changed. */
  function Changed(prev: FileSet, next: FileSet): set<Path> {
    set p | p in next && IsChanged(prev, p, next[p])
  }

  /** Paths present in `prev` and gone in `next`. */
  function Deleted(prev: FileSet, next: FileSet): set<Path> {
    prev.Keys - next.Keys
  }

  function ChangedRows(prev: FileSet, rows: seq<FileRow>): seq<FileRow> {
    if rows == [] then []
    else
      var rest := ChangedRows(prev, rows[..|rows| - 1]);
      var r := rows[|rows| - 1];
      if IsChanged(prev, r.relPath, r.entry) then rest + [r] else rest
  }

  function DeletedRows(rows: seq<FileRow>, next: FileSet): seq<Path> {
    if rows == [] then []
    else
      var rest := DeletedRows(rows[..|rows| - 1], next);
      var r := rows[|rows| - 1];
      if r.relPath !in next then rest + [r.relPath] else rest
  }

  function Diff(prev: seq<FileRow>, next: seq<FileRow>): RowDiff {
    RowDiff(ChangedRows(ByPath(prev), next), DeletedRows(prev, ByPath(next)))
  }

  lemma {:induction false} ChangedRowsSound(prev: FileSet, rows: seq<FileRow>)
    ensures forall r :: r in ChangedRows(prev, rows) <==> r in rows && IsChanged(prev, r.relPath, r.entry)
  {
    if rows != [] {
      ChangedRowsSound(prev, rows[..|rows| - 1]);
      assert rows == rows[..|rows| - 1] + [rows[|rows| - 1]];
    }
  }

  lemma {:induction false} DeletedRowsSound(rows: seq<FileRow>, next: FileSet)
    ensures forall p :: p in DeletedRows(rows, next) <==> p in ByPath(rows) && p !in next
  {
    if rows != [] {
      DeletedRowsSound(rows[..|rows| - 1], next);
    }
  }

  /** The vectors of a diff hold exactly the changed and the deleted paths, and
      the diff is empty exactly when no path was added, dropped or rehashed:
      sizes and modification times never force a backup. */
  lemma DiffMeaning(prev: seq<FileRow>, next: seq<FileRow>)
    requires Sorted(prev) && Sorted(next)
    ensures forall r :: r in Diff(prev, next).changed
                    <==> r.relPath in Changed(ByPath(prev), ByPath(next)) && ByPath(next)[r.relPath] == r.entry
    ensures forall p :: p in Diff(prev, next).deleted <==> p in Deleted(ByPath(prev), ByPath(next))
    ensures Diff(prev, next).changed == [] && Diff(prev, next).deleted == []
        <==> HashesOf(ByPath(prev)) == HashesOf(ByPath(next))
  {
    var o, n, d := ByPath(prev), ByPath(next), Diff(prev, next);
    ChangedRowsSound(o, next);
    DeletedRowsSound(prev, n);
    forall r ensures r in next <==> r.relPath in n && n[r.relPath] == r.entry { ByPathRow(next, r); }
    NoDiffIffSameHashes(o, n);
    if d.changed == [] {
      forall p ensures p !in Changed(o, n) { if p in n { assert FileRow(p, n[p]) !in d.changed; } }
    } else {
      assert d.changed[0].relPath in Changed(o, n);
    }
    if d.deleted != [] {
      assert d.deleted[0] in Deleted(o, n);
    }
  }

  /** The map-level reading of `DiffMeaning` used by the backup pipeline. */
  lemma NoDiffIffSameHashes(prev: FileSet, next: FileSet)
    ensures Changed(prev, next) == {} && Deleted(prev, next) == {} <==> HashesOf(prev) == HashesOf(next)
  {
    if Changed(prev, next) == {} && Deleted(prev, next) == {} {
      forall p | p in next ensures p in prev && prev[p].hash == next[p].hash { assert p !in Changed(prev, next); }
      forall p | p in prev ensures p in next { assert p !in Deleted(prev, next); }
    }
    if HashesOf(prev) == HashesOf(next) {
      assert prev.Keys == HashesOf(prev).Keys == HashesOf(next).Keys == next.Keys;
      forall p | p in next ensures p !in Changed(prev, next) { assert HashesOf(prev)[p] == HashesOf(next)[p]; }
    }
  }
}
