/** The migrations folder: one sub-folder per migration, named `{timestamp}_{name}`, holding
    the migration script. The directory is an object whose entry list the creation of a folder
    updates; the clock reading is a parameter. */
module MigrationsFolder {
  import opened Wrappers
  import opened Text

  /** `MIGRATION_SCRIPT_FILENAME`: the script's file name without its extension. */
  const MigrationScriptFilename: string := "migration"

  /** A path as its sequence of components. */
  type Path = seq<string>

  /** A folder path always has a final component. */
  type FolderPath = p: Path | |p| > 0 witness [""]

  /** `MigrationFolder`: the path of one migration's folder. */
  datatype MigrationFolder = MigrationFolder(path: FolderPath)

  /** `migration_id`: the folder's own name, the final component of its path. */
  function MigrationId(f: MigrationFolder): string {
    f.path[|f.path| - 1]
  }

  /** A row of the migrations table as far as matching goes: the migration's name. */
  datatype AppliedMigration = AppliedMigration(name: string)

  /** `matches_applied_migration`. */
  function MatchesAppliedMigration(f: MigrationFolder, applied: AppliedMigration): bool {
    applied.name == MigrationId(f)
  }

  // ---- timestamps ----

  /** A UTC clock reading, broken down as the timestamp format uses it. */
  datatype DateTime = DateTime(year: nat, month: nat, day: nat, hour: nat, minute: nat, second: nat)

  predicate WellFormed(t: DateTime) {
    && t.year < 10000
    && 1 <= t.month <= 12 && 1 <= t.day <= 31
    && t.hour < 24 && t.minute < 60 && t.second < 60
  }

  /** `t` is strictly earlier than `u`. */
  predicate Before(t: DateTime, u: DateTime) {
    || t.year < u.year
    || (t.year == u.year && t.month < u.month)
    || (t.year == u.year && t.month == u.month && t.day < u.day)
    || (t.year == u.year && t.month == u.month && t.day == u.day && t.hour < u.hour)
    || (t.year == u.year && t.month == u.month && t.day == u.day && t.hour == u.hour && t.minute < u.minute)
    || (t.year == u.year && t.month == u.month && t.day == u.day && t.hour == u.hour && t.minute == u.minute
        && t.second < u.second)
  }

  /** The timestamp as the format string `%Y%m%d%M%S` writes it: year, month, day, minute and
      second, zero-padded, with no hour. */
  function TimestampAsWritten(t: DateTime): (r: string)
    requires WellFormed(t)
    ensures |r| == 12 && AllDigits(r)
    ensures r[..4] == Pad(t.year, 4) && r[4..6] == Pad(t.month, 2) && r[6..8] == Pad(t.day, 2)
    ensures r[8..10] == Pad(t.minute, 2) && r[10..12] == Pad(t.second, 2)
  {
    Pad(t.year, 4) + (Pad(t.month, 2) + (Pad(t.day, 2) + (Pad(t.minute, 2) + Pad(t.second, 2))))
  }

  /** The format has no place for the hour: readings that differ only in the hour get the same
      timestamp. */
  lemma TimestampAsWrittenIgnoresHour(t: DateTime, hour: nat)
    requires WellFormed(t) && hour < 24
    ensures TimestampAsWritten(t) == TimestampAsWritten(t.(hour := hour))
  {
  }

  /** The timestamp with the hour in its place, `%Y%m%d%H%M%S`. */
  function MigrationTimestamp(t: DateTime): (r: string)
    requires WellFormed(t)
    ensures |r| == 14 && AllDigits(r)
    ensures r[..4] == Pad(t.year, 4) && r[4..6] == Pad(t.month, 2) && r[6..8] == Pad(t.day, 2)
    ensures r[8..10] == Pad(t.hour, 2) && r[10..12] == Pad(t.minute, 2) && r[12..14] == Pad(t.second, 2)
  {
    Pad(t.year, 4) + (Pad(t.month, 2) + (Pad(t.day, 2) + (Pad(t.hour, 2) + (Pad(t.minute, 2) + Pad(t.second, 2)))))
  }

  /** With the hour left out, a migration created at 10:59 gets a larger id than one created
      two minutes later, at 11:01 the same day. */
  lemma TimestampAsWrittenIsNotChronological()
    ensures var early := DateTime(2020, 1, 1, 10, 59, 0);
            var late := DateTime(2020, 1, 1, 11, 1, 0);
            && WellFormed(early) && WellFormed(late) && Before(early, late)
            && TimestampAsWritten(early) == "202001015900"
            && TimestampAsWritten(late) == "202001010100"
            && LexLess(TimestampAsWritten(late), TimestampAsWritten(early))
  {
    EarlyTimestamp();
    LateTimestamp();
    assert LexLess("0100", "5900");
    LexLessCommonPrefix("20200101", "0100", "5900");
    assert "20200101" + "0100" == "202001010100";
    assert "20200101" + "5900" == "202001015900";
  }

  lemma EarlyTimestamp()
    ensures WellFormed(DateTime(2020, 1, 1, 10, 59, 0))
    ensures TimestampAsWritten(DateTime(2020, 1, 1, 10, 59, 0)) == "202001015900"
  {
    PaddedFields();
    assert TimestampAsWritten(DateTime(2020, 1, 1, 10, 59, 0)) == "2020" + ("01" + ("01" + ("59" + "00")));
  }

  lemma LateTimestamp()
    ensures WellFormed(DateTime(2020, 1, 1, 11, 1, 0))
    ensures TimestampAsWritten(DateTime(2020, 1, 1, 11, 1, 0)) == "202001010100"
  {
    PaddedFields();
    assert TimestampAsWritten(DateTime(2020, 1, 1, 11, 1, 0)) == "2020" + ("01" + ("01" + ("01" + "00")));
  }

  /** The padded fields of the two readings above. */
  lemma PaddedFields()
    ensures Pad(2020, 4) == "2020" && Pad(1, 2) == "01" && Pad(59, 2) == "59" && Pad(0, 2) == "00"
  {
    assert Pad(2, 1) == "2" && Pad(20, 2) == "20" && Pad(202, 3) == "202";
    assert Pad(0, 1) == "0" && Pad(5, 1) == "5";
  }

  /** Zero-padded fields of one width compare as the field values do, and equal fields leave
      the comparison to what follows. */
  lemma PadStep(n: nat, m: nat, width: nat, x: string, y: string)
    requires n < Pow10(width) && m < Pow10(width)
    requires n < m || (n == m && LexLess(x, y))
    ensures LexLess(Pad(n, width) + x, Pad(m, width) + y)
  {
    if n < m {
      PadMonotonic(n, m, width);
      LexLessExtend(Pad(n, width), Pad(m, width), x, y);
    } else {
      LexLessCommonPrefix(Pad(n, width), x, y);
    }
  }

  /** Timestamps of well-formed readings sort in time order, so the ids of migrations created
      one after the other sort in creation order. */
  lemma TimestampOrderIsChronological(t: DateTime, u: DateTime)
    requires WellFormed(t) && WellFormed(u) && Before(t, u)
    ensures LexLess(MigrationTimestamp(t), MigrationTimestamp(u))
  {
    var y, mo, d, h, mi := Pad(t.year, 4), Pad(t.month, 2), Pad(t.day, 2), Pad(t.hour, 2), Pad(t.minute, 2);
    var y', mo', d', h', mi' := Pad(u.year, 4), Pad(u.month, 2), Pad(u.day, 2), Pad(u.hour, 2), Pad(u.minute, 2);
    var s, s' := Pad(t.second, 2), Pad(u.second, 2);
    assert Pow10(2) == 100 && Pow10(4) == 10000;
    var sameMinute := t.year == u.year && t.month == u.month && t.day == u.day && t.hour == u.hour
                      && t.minute == u.minute;
    var sameHour := t.year == u.year && t.month == u.month && t.day == u.day && t.hour == u.hour;
    var sameDay := t.year == u.year && t.month == u.month && t.day == u.day;
    var sameMonth := t.year == u.year && t.month == u.month;
    if sameMinute {
      PadMonotonic(t.second, u.second, 2);
    }
    if sameHour {
      PadStep(t.minute, u.minute, 2, s, s');
    }
    if sameDay {
      PadStep(t.hour, u.hour, 2, mi + s, mi' + s');
    }
    if sameMonth {
      PadStep(t.day, u.day, 2, h + (mi + s), h' + (mi' + s'));
    }
    if t.year == u.year {
      PadStep(t.month, u.month, 2, d + (h + (mi + s)), d' + (h' + (mi' + s')));
    }
    PadStep(t.year, u.year, 4, mo + (d + (h + (mi + s))), mo' + (d' + (h' + (mi' + s'))));
  }

  /** `{timestamp}_{migration_name}`. */
  function FolderName(now: DateTime, migrationName: string): (r: string)
    requires WellFormed(now)
    ensures StartsWith(r, MigrationTimestamp(now))
    ensures |r| == 15 + |migrationName| && r[14] == '_' && r[15..] == migrationName
  {
    var r := MigrationTimestamp(now) + "_" + migrationName;
    assert r[..14] == MigrationTimestamp(now);
    r
  }

  /** Folders created at different times get names that sort in time order, whatever the
      migration names. */
  lemma FolderNamesSortChronologically(t: DateTime, u: DateTime, n: string, m: string)
    requires WellFormed(t) && WellFormed(u) && Before(t, u)
    ensures LexLess(FolderName(t, n), FolderName(u, m))
  {
    TimestampOrderIsChronological(t, u);
    assert FolderName(t, n) == MigrationTimestamp(t) + ("_" + n);
    assert FolderName(u, m) == MigrationTimestamp(u) + ("_" + m);
    LexLessExtend(MigrationTimestamp(t), MigrationTimestamp(u), "_" + n, "_" + m);
  }

  // ---- the directory ----

  datatype EntryKind = File | Directory

  /** One entry of the migrations directory, as reading the directory lists it. */
  datatype DirEntry = DirEntry(name: string, kind: EntryKind)

  datatype IoError = AlreadyExists(path: Path)

  /** The migrations directory: its path and its entries in the order reading it lists them. */
  class MigrationsDirectory {
    const path: Path
    var entries: seq<DirEntry>

    /** Entry names are unique within a directory. */
    ghost predicate Valid()
      reads this
    {
      forall i, j :: 0 <= i < j < |entries| ==> entries[i].name != entries[j].name
    }

    /** `path.exists()` for `path` directly in this directory. */
    predicate HasEntry(name: string)
      reads this
    {
      exists i :: 0 <= i < |entries| && entries[i].name == name
    }

    constructor(path: Path, entries: seq<DirEntry>)
      requires forall i, j :: 0 <= i < j < |entries| ==> entries[i].name != entries[j].name
      ensures this.path == path && this.entries == entries
      ensures Valid()
    {
      this.path := path;
      this.entries := entries;
    }
  }

  /** `create_migration_folder`: the folder `{timestamp}_{name}` directly in the directory.
      An existing entry of that name makes it fail with `AlreadyExists` and leave the
      directory as it was; otherwise exactly that directory entry is added. */
  method CreateMigrationFolder(dir: MigrationsDirectory, migrationName: string, now: DateTime)
    returns (r: Result<MigrationFolder, IoError>)
    requires WellFormed(now)
    requires dir.Valid()
    modifies dir
    ensures dir.Valid()
    ensures var folderPath := dir.path + [FolderName(now, migrationName)];
            if old(dir.HasEntry(FolderName(now, migrationName))) then
              && r == Failure(AlreadyExists(folderPath))
              && dir.entries == old(dir.entries)
            else
              && r == Success(MigrationFolder(folderPath))
              && dir.entries == old(dir.entries) + [DirEntry(FolderName(now, migrationName), Directory)]
  {
    var folderName := MigrationTimestamp(now) + "_" + migrationName;
    var folderPath := dir.path + [folderName];

    if dir.HasEntry(folderName) {
      return Failure(AlreadyExists(folderPath));
    }

    dir.entries := dir.entries + [DirEntry(folderName, Directory)];
    return Success(MigrationFolder(folderPath));
  }

  /** The folder created for a migration is matched by exactly the applied migration recorded
      under its folder name. */
  lemma CreatedFolderMatches(dir: Path, now: DateTime, migrationName: string, applied: AppliedMigration)
    requires WellFormed(now)
    ensures MigrationId(MigrationFolder(dir + [FolderName(now, migrationName)])) == FolderName(now, migrationName)
    ensures MatchesAppliedMigration(MigrationFolder(dir + [FolderName(now, migrationName)]), applied)
            <==> applied.name == FolderName(now, migrationName)
  {
  }

  // ---- listing ----

  /** The directory entries that are directories, as folders, in directory order. */
  function DirectoryFolders(path: Path, entries: seq<DirEntry>): (r: seq<MigrationFolder>)
    ensures forall f :: f in r <==> exists i :: 0 <= i < |entries| && entries[i].kind == Directory
                                          && f == MigrationFolder(path + [entries[i].name])
    decreases |entries|
  {
    if entries == [] then []
    else
      var last := entries[|entries| - 1];
      var before := DirectoryFolders(path, entries[..|entries| - 1]);
      assert forall i :: 0 <= i < |entries| - 1 ==> entries[..|entries| - 1][i] == entries[i];
      before + (if last.kind == Directory then [MigrationFolder(path + [last.name])] else [])
  }

  /** Distinct entry names give the listed folders distinct ids. */
  lemma {:induction false} DirectoryFoldersDistinct(path: Path, entries: seq<DirEntry>)
    requires forall i, j :: 0 <= i < j < |entries| ==> entries[i].name != entries[j].name
    ensures DistinctIds(DirectoryFolders(path, entries))
    decreases |entries|
  {
    if entries != [] {
      var init := entries[..|entries| - 1];
      DirectoryFoldersDistinct(path, init);
      var before := DirectoryFolders(path, init);
      var last := entries[|entries| - 1];
      forall f | f in before ensures MigrationId(f) != last.name {
        var i :| 0 <= i < |init| && init[i].kind == Directory && f == MigrationFolder(path + [init[i].name]);
        assert MigrationId(f) == init[i].name == entries[i].name;
      }
    }
  }

  predicate DistinctIds(s: seq<MigrationFolder>) {
    forall i, j :: 0 <= i < j < |s| ==> MigrationId(s[i]) != MigrationId(s[j])
  }

  /** Ordered by `migration_id`, equal ids allowed. */
  predicate SortedById(s: seq<MigrationFolder>) {
    forall i, j :: 0 <= i < j < |s| ==> LexLeq(MigrationId(s[i]), MigrationId(s[j]))
  }

  /** Ordered by strictly increasing `migration_id`. */
  predicate StrictlySortedById(s: seq<MigrationFolder>) {
    forall i, j :: 0 <= i < j < |s| ==> LexLess(MigrationId(s[i]), MigrationId(s[j]))
  }

  /** `s` with `x` put before the first element whose id is not smaller. */
  function Insert(s: seq<MigrationFolder>, x: MigrationFolder): (r: seq<MigrationFolder>)
    ensures multiset(r) == multiset(s) + multiset{x}
    ensures forall y :: y in r <==> y in s || y == x
    ensures SortedById(s) ==> SortedById(r)
    ensures StrictlySortedById(s) && (forall y :: y in s ==> MigrationId(y) != MigrationId(x)) ==> StrictlySortedById(r)
  {
    if s == [] then [x]
    else if LexLeq(MigrationId(x), MigrationId(s[0])) then
      InsertFront(s, x);
      [x] + s
    else
      LexLessTotal(MigrationId(x), MigrationId(s[0]));
      var rest := Insert(s[1..], x);
      assert s == [s[0]] + s[1..];
      InsertAfter(s, x, rest);
      [s[0]] + rest
  }

  lemma InsertFront(s: seq<MigrationFolder>, x: MigrationFolder)
    requires s != [] && LexLeq(MigrationId(x), MigrationId(s[0]))
    ensures SortedById(s) ==> SortedById([x] + s)
    ensures StrictlySortedById(s) && MigrationId(x) != MigrationId(s[0]) ==> StrictlySortedById([x] + s)
  {
    var r := [x] + s;
    if SortedById(s) {
      forall j | 1 <= j < |r| ensures LexLeq(MigrationId(x), MigrationId(r[j])) {
        LexLeqTransitive(MigrationId(x), MigrationId(s[0]), MigrationId(r[j]));
      }
    }
    if StrictlySortedById(s) && MigrationId(x) != MigrationId(s[0]) {
      forall j | 1 < j < |r| ensures LexLess(MigrationId(x), MigrationId(r[j])) {
        LexLessTransitive(MigrationId(x), MigrationId(s[0]), MigrationId(r[j]));
      }
    }
  }

  lemma InsertAfter(s: seq<MigrationFolder>, x: MigrationFolder, rest: seq<MigrationFolder>)
    requires s != [] && LexLess(MigrationId(s[0]), MigrationId(x))
    requires forall y :: y in rest <==> y in s[1..] || y == x
    requires SortedById(s) ==> SortedById(rest)
    requires StrictlySortedById(s[1..]) && (forall y :: y in s[1..] ==> MigrationId(y) != MigrationId(x))
             ==> StrictlySortedById(rest)
    ensures SortedById(s) ==> SortedById([s[0]] + rest)
    ensures StrictlySortedById(s) && (forall y :: y in s ==> MigrationId(y) != MigrationId(x))
            ==> StrictlySortedById([s[0]] + rest)
  {
    var r := [s[0]] + rest;
    if SortedById(s) {
      assert SortedById(s[1..]) by {
        forall i, j | 0 <= i < j < |s[1..]| ensures LexLeq(MigrationId(s[1..][i]), MigrationId(s[1..][j])) {
          assert s[1..][i] == s[i + 1] && s[1..][j] == s[j + 1];
        }
      }
      forall j | 1 <= j < |r| ensures LexLeq(MigrationId(s[0]), MigrationId(r[j])) {
        assert r[j] in rest;
        if r[j] != x {
          var k :| 1 <= k < |s| && s[k] == r[j];
        }
      }
    }
    if StrictlySortedById(s) && (forall y :: y in s ==> MigrationId(y) != MigrationId(x)) {
      assert StrictlySortedById(s[1..]) by {
        forall i, j | 0 <= i < j < |s[1..]| ensures LexLess(MigrationId(s[1..][i]), MigrationId(s[1..][j])) {
          assert s[1..][i] == s[i + 1] && s[1..][j] == s[j + 1];
        }
      }
      forall j | 1 <= j < |r| ensures LexLess(MigrationId(s[0]), MigrationId(r[j])) {
        assert r[j] in rest;
        if r[j] != x {
          var k :| 1 <= k < |s| && s[k] == r[j];
        }
      }
    }
  }

  /** `sort_by` on `migration_id`: a permutation of its input in id order; when the ids are
      distinct the order is strict. */
  method SortById(s: seq<MigrationFolder>) returns (r: seq<MigrationFolder>)
    ensures multiset(r) == multiset(s)
    ensures SortedById(r)
    ensures DistinctIds(s) ==> StrictlySortedById(r)
  {
    r := [];
    for i := 0 to |s|
      invariant multiset(r) == multiset(s[..i])
      invariant forall y :: y in r <==> y in s[..i]
      invariant SortedById(r)
      invariant DistinctIds(s) ==> StrictlySortedById(r)
    {
      if DistinctIds(s) {
        forall y | y in r ensures MigrationId(y) != MigrationId(s[i]) {
          var k :| 0 <= k < i && s[k] == y;
        }
      }
      r := Insert(r, s[i]);
      assert s[..i + 1] == s[..i] + [s[i]];
    }
    assert s[..|s|] == s;
  }

  /** `list_migrations`: the sub-directories of the migrations directory, each once, and
      nothing else, ordered by `migration_id` (strictly, as entry names are unique). */
  method ListMigrations(dir: MigrationsDirectory) returns (folders: seq<MigrationFolder>)
    requires dir.Valid()
    ensures multiset(folders) == multiset(DirectoryFolders(dir.path, dir.entries))
    ensures StrictlySortedById(folders)
  {
    var entries: seq<MigrationFolder> := [];
    for i := 0 to |dir.entries|
      invariant entries == DirectoryFolders(dir.path, dir.entries[..i])
    {
      var entry := dir.entries[i];
      assert dir.entries[..i + 1][..i] == dir.entries[..i];
      if entry.kind == Directory {
        entries := entries + [MigrationFolder(dir.path + [entry.name])];
      }
    }
    assert dir.entries[..|dir.entries|] == dir.entries;
    DirectoryFoldersDistinct(dir.path, dir.entries);
    folders := SortById(entries);
  }

  /** A listed folder is a directory of the migrations directory, and every directory is listed. */
  lemma ListedFoldersAreDirectories(dir: Path, entries: seq<DirEntry>, folders: seq<MigrationFolder>, f: MigrationFolder)
    requires multiset(folders) == multiset(DirectoryFolders(dir, entries))
    ensures f in folders <==> exists i :: 0 <= i < |entries| && entries[i].kind == Directory
                                     && f == MigrationFolder(dir + [entries[i].name])
  {
    assert f in folders <==> f in multiset(folders);
    assert f in DirectoryFolders(dir, entries) <==> f in multiset(DirectoryFolders(dir, entries));
  }

  /** Among folders with distinct ids, at most one matches a given applied migration. */
  lemma AtMostOneMatch(folders: seq<MigrationFolder>, applied: AppliedMigration, i: nat, j: nat)
    requires DistinctIds(folders)
    requires i < |folders| && j < |folders|
    requires MatchesAppliedMigration(folders[i], applied) && MatchesAppliedMigration(folders[j], applied)
    ensures i == j
  {
  }

  // ---- the script ----

  /** The path `write_migration_script` writes to: `migration` in the folder, with the
      extension set (none when the extension is empty). */
  function ScriptPath(f: MigrationFolder, extension: string): (r: Path)
    ensures |r| == |f.path| + 1 && r[..|f.path|] == f.path
    ensures StartsWith(r[|f.path|], MigrationScriptFilename)
    ensures extension == "" ==> r[|f.path|] == MigrationScriptFilename
    ensures extension != "" ==> r[|f.path|][|MigrationScriptFilename|..] == "." + extension
  {
    var fileName := if extension == "" then "migration" else "migration" + "." + extension;
    assert fileName[..9] == "migration";
    f.path + [fileName]
  }
}
