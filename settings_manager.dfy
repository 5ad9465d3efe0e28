/** `SettingsManager`: typed settings in `section/key` slots of a QSettings
    store with defaults, and the most-recently-used file list kept in the
    slots `recent/file_0`, `recent/file_1`, … */
module Settings {
  import opened Text
  import opened Sorting
  import opened Schema

  /** A value QSettings hands back; `NoneV` is Python's `None`. */
  datatype Value = NoneV | BoolV(b: bool) | IntV(i: int) | StrV(s: string)

  /** The QSettings store. */
  type Store = map<string, Value>

  /** `settings.value(key, default)` */
  function Lookup(store: Store, key: string, default: Value): (r: Value)
    ensures key in store ==> r == store[key]
    ensures key !in store ==> r == default
  {
    if key in store then store[key] else default
  }

  /** The key of `key` in `section`: `f"{section}/{key}"`. */
  function SettingKey(section: string, key: string): string {
    section + "/" + key
  }

  /** A section name: non-empty and without a slash. */
  predicate IsSection(section: string) {
    section != [] && forall i :: 0 <= i < |section| ==> section[i] != '/'
  }

  /** Keys of sections without slashes split back into section and key, so
      two sections never share a slot. */
  lemma {:induction false} SettingKeyInjective(s1: string, k1: string, s2: string, k2: string)
    requires IsSection(s1) && IsSection(s2)
    requires SettingKey(s1, k1) == SettingKey(s2, k2)
    ensures s1 == s2 && k1 == k2
  {
    var a, b := SettingKey(s1, k1), SettingKey(s2, k2);
    if |s1| < |s2| {
      SlashAfterSection(s1, k1);
      assert false;
    } else if |s2| < |s1| {
      SlashAfterSection(s2, k2);
      assert false;
    } else {
      assert s1 == a[..|s1|] && s2 == b[..|s2|];
      assert k1 == a[|s1| + 1..] && k2 == b[|s2| + 1..];
    }
  }

  lemma SlashAfterSection(s: string, k: string)
    ensures |SettingKey(s, k)| > |s| && SettingKey(s, k)[|s|] == '/'
  {
  }

  const Interface: string := "interface"
  const Database: string := "database"
  const Export: string := "export"
  const Recent: string := "recent"

  /** The four sections are section names and pairwise distinct, so a key
      set in one is never seen by another. */
  lemma SectionsDistinct(k1: string, k2: string)
    ensures IsSection(Interface) && IsSection(Database) && IsSection(Export) && IsSection(Recent)
    ensures SettingKey(Interface, k1) != SettingKey(Database, k2)
    ensures SettingKey(Interface, k1) != SettingKey(Export, k2)
    ensures SettingKey(Interface, k1) != SettingKey(Recent, k2)
    ensures SettingKey(Database, k1) != SettingKey(Export, k2)
    ensures SettingKey(Database, k1) != SettingKey(Recent, k2)
    ensures SettingKey(Export, k1) != SettingKey(Recent, k2)
  {
    assert IsSection(Interface) && IsSection(Database) && IsSection(Export) && IsSection(Recent);
    if SettingKey(Interface, k1) == SettingKey(Database, k2) { SettingKeyInjective(Interface, k1, Database, k2); }
    if SettingKey(Interface, k1) == SettingKey(Export, k2) { SettingKeyInjective(Interface, k1, Export, k2); }
    if SettingKey(Interface, k1) == SettingKey(Recent, k2) { SettingKeyInjective(Interface, k1, Recent, k2); }
    if SettingKey(Database, k1) == SettingKey(Export, k2) { SettingKeyInjective(Database, k1, Export, k2); }
    if SettingKey(Database, k1) == SettingKey(Recent, k2) { SettingKeyInjective(Database, k1, Recent, k2); }
    if SettingKey(Export, k1) == SettingKey(Recent, k2) { SettingKeyInjective(Export, k1, Recent, k2); }
  }

  /** Setting a key of a section is read back by that section's getter and
      leaves every other section key as it was. */
  lemma SetThenGet(store: Store, section: string, key: string, v: Value, other: string, otherKey: string, default: Value)
    requires IsSection(section) && IsSection(other)
    ensures Lookup(store[SettingKey(section, key) := v], SettingKey(section, key), default) == v
    ensures (other, otherKey) != (section, key) ==>
      Lookup(store[SettingKey(section, key) := v], SettingKey(other, otherKey), default)
      == Lookup(store, SettingKey(other, otherKey), default)
  {
    if (other, otherKey) != (section, key) && SettingKey(other, otherKey) == SettingKey(section, key) {
      SettingKeyInjective(other, otherKey, section, key);
    }
  }

  /** POSIX `os.path.join(a, b)` */
  function PathJoin(a: string, b: string): (r: string)
    ensures b != [] && b[0] == '/' ==> r == b
    ensures (b == [] || b[0] != '/') && a != [] && a[|a| - 1] != '/' ==> r == a + "/" + b
  {
    if b != [] && b[0] == '/' then b
    else if a == [] || a[|a| - 1] == '/' then a + b
    else a + "/" + b
  }

  // ---------------------------------------------------------------------------
  // The recent-files slots
  // ---------------------------------------------------------------------------

  /** The slot of the `i`-th recent file: `recent/file_{i}`. */
  function SlotKey(i: nat): string {
    SettingKey(Recent, "file_" + Digits(i))
  }

  lemma SlotKeyInjective(i: nat, j: nat)
    ensures SlotKey(i) == SlotKey(j) ==> i == j
  {
    if SlotKey(i) == SlotKey(j) {
      assert IsSection(Recent);
      SettingKeyInjective(Recent, "file_" + Digits(i), Recent, "file_" + Digits(j));
      assert Digits(i) == ("file_" + Digits(i))[5..];
      assert Digits(j) == ("file_" + Digits(j))[5..];
      DigitsInjective(i, j);
    }
  }

  /** `get_recent_value(f"file_{i}")` when it is a non-empty path: the
      truthiness test of `get_recent_files`. */
  function SlotPath(store: Store, i: nat): Option<string> {
    match Lookup(store, SlotKey(i), NoneV)
    case StrV(s) => if s != "" then Some(s) else None
    case _ => None
  }

  /** Slot `i` names a file that exists. */
  predicate Listed(store: Store, i: nat, pathExists: string -> bool) {
    SlotPath(store, i).Some? && pathExists(SlotPath(store, i).value)
  }

  /** The listed files of slots `0 .. n-1`, in slot order. */
  function RecentUpTo(store: Store, n: nat, pathExists: string -> bool): (r: seq<string>)
    ensures |r| <= n
    ensures forall k :: 0 <= k < |r| ==> r[k] != "" && pathExists(r[k])
  {
    if n == 0 then []
    else RecentUpTo(store, n - 1, pathExists) + (if Listed(store, n - 1, pathExists) then [SlotPath(store, n - 1).value] else [])
  }

  /** `get_recent_files(max_files)`: `range(max_files)` is empty for a
      non-positive bound. */
  function RecentFiles(store: Store, maxFiles: int, pathExists: string -> bool): (r: seq<string>)
    ensures maxFiles <= 0 ==> r == []
    ensures maxFiles > 0 ==> |r| <= maxFiles
    ensures forall k :: 0 <= k < |r| ==> r[k] != "" && pathExists(r[k])
  {
    if maxFiles <= 0 then [] else RecentUpTo(store, maxFiles, pathExists)
  }

  /** `recent.remove(x)` behind `if x in recent`: the first occurrence goes. */
  function RemoveFirst(s: seq<string>, x: string): (r: seq<string>)
    ensures x !in s ==> r == s
    ensures x in s ==> |r| == |s| - 1 && multiset(r) == multiset(s) - multiset{x}
  {
    if s == [] then []
    else
      assert s == [s[0]] + s[1..];
      if s[0] == x then s[1..]
      else [s[0]] + RemoveFirst(s[1..], x)
  }

  /** Python's `s[:n]`: a negative bound counts from the end. */
  function PyPrefix(s: seq<string>, n: int): (r: seq<string>)
    ensures 0 <= n <= |s| ==> r == s[..n]
    ensures n > |s| ==> r == s
    ensures n < 0 ==> r == s[..if |s| + n > 0 then |s| + n else 0]
  {
    if n >= |s| then s
    else if n >= 0 then s[..n]
    else if |s| + n > 0 then s[..|s| + n]
    else []
  }

  /** The list `add_recent_file(p, max_files)` writes back. */
  function NewRecent(store: Store, p: string, maxFiles: int, pathExists: string -> bool): seq<string> {
    PyPrefix([p] + RemoveFirst(RecentFiles(store, maxFiles, pathExists), p), maxFiles)
  }

  /** The slots `0 .. n-1`. */
  ghost predicate SlotBelow(key: string, n: int) {
    exists i: nat :: i < n && key == SlotKey(i)
  }

  // ---------------------------------------------------------------------------
  // The manager
  // ---------------------------------------------------------------------------

  class SettingsManager {
    var store: Store
    /** `QStandardPaths.writableLocation(AppDataLocation)` */
    const appDataDir: string

    constructor (store: Store, appDataDir: string)
      ensures this.store == store && this.appDataDir == appDataDir
    {
      this.store, this.appDataDir := store, appDataDir;
    }

    function GetInterfaceSetting(key: string, default: Value): (r: Value)
      reads this
      ensures SettingKey(Interface, key) in store ==> r == store[SettingKey(Interface, key)]
      ensures SettingKey(Interface, key) !in store ==> r == default
    {
      Lookup(store, SettingKey(Interface, key), default)
    }

    method SetInterfaceSetting(key: string, v: Value)
      modifies this
      ensures store == old(store)[SettingKey(Interface, key) := v]
    {
      store := store[SettingKey(Interface, key) := v];
    }

    function GetDatabaseSetting(key: string, default: Value): (r: Value)
      reads this
      ensures SettingKey(Database, key) in store ==> r == store[SettingKey(Database, key)]
      ensures SettingKey(Database, key) !in store ==> r == default
    {
      Lookup(store, SettingKey(Database, key), default)
    }

    method SetDatabaseSetting(key: string, v: Value)
      modifies this
      ensures store == old(store)[SettingKey(Database, key) := v]
    {
      store := store[SettingKey(Database, key) := v];
    }

    function GetExportSetting(key: string, default: Value): (r: Value)
      reads this
      ensures SettingKey(Export, key) in store ==> r == store[SettingKey(Export, key)]
      ensures SettingKey(Export, key) !in store ==> r == default
    {
      Lookup(store, SettingKey(Export, key), default)
    }

    method SetExportSetting(key: string, v: Value)
      modifies this
      ensures store == old(store)[SettingKey(Export, key) := v]
    {
      store := store[SettingKey(Export, key) := v];
    }

    function GetRecentValue(key: string, default: Value): (r: Value)
      reads this
      ensures SettingKey(Recent, key) in store ==> r == store[SettingKey(Recent, key)]
      ensures SettingKey(Recent, key) !in store ==> r == default
    {
      Lookup(store, SettingKey(Recent, key), default)
    }

    method SetRecentValue(key: string, v: Value)
      modifies this
      ensures store == old(store)[SettingKey(Recent, key) := v]
    {
      store := store[SettingKey(Recent, key) := v];
    }

    // The properties, each with the default it falls back to.

    function ShowWelcomeDialog(): (r: Value)
      reads this
      ensures SettingKey(Interface, "show_welcome_dialog") !in store ==> r == BoolV(true)
    {
      GetInterfaceSetting("show_welcome_dialog", BoolV(true))
    }

    function AutoRefreshInterval(): (r: Value)
      reads this
      ensures SettingKey(Interface, "auto_refresh_interval") !in store ==> r == IntV(30)
    {
      GetInterfaceSetting("auto_refresh_interval", IntV(30))
    }

    function ItemsPerPage(): (r: Value)
      reads this
      ensures SettingKey(Interface, "items_per_page") !in store ==> r == IntV(50)
    {
      GetInterfaceSetting("items_per_page", IntV(50))
    }

    function ConfirmDeletions(): (r: Value)
      reads this
      ensures SettingKey(Interface, "confirm_deletions") !in store ==> r == BoolV(true)
    {
      GetInterfaceSetting("confirm_deletions", BoolV(true))
    }

    function DatabasePath(): (r: Value)
      reads this
      ensures SettingKey(Database, "path") !in store ==> r == StrV(PathJoin(appDataDir, "autoparts.db"))
    {
      GetDatabaseSetting("path", StrV(PathJoin(appDataDir, "autoparts.db")))
    }

    function AutoBackupEnabled(): (r: Value)
      reads this
      ensures SettingKey(Database, "auto_backup_enabled") !in store ==> r == BoolV(true)
    {
      GetDatabaseSetting("auto_backup_enabled", BoolV(true))
    }

    function BackupIntervalDays(): (r: Value)
      reads this
      ensures SettingKey(Database, "backup_interval_days") !in store ==> r == IntV(7)
    {
      GetDatabaseSetting("backup_interval_days", IntV(7))
    }

    function MaxBackupFiles(): (r: Value)
      reads this
      ensures SettingKey(Database, "max_backup_files") !in store ==> r == IntV(10)
    {
      GetDatabaseSetting("max_backup_files", IntV(10))
    }

    function DefaultExportFormat(): (r: Value)
      reads this
      ensures SettingKey(Export, "default_format") !in store ==> r == StrV("csv")
    {
      GetExportSetting("default_format", StrV("csv"))
    }

    function ExportDirectory(): (r: Value)
      reads this
      ensures SettingKey(Export, "directory") !in store ==> r == StrV(PathJoin(appDataDir, "exports"))
    {
      GetExportSetting("directory", StrV(PathJoin(appDataDir, "exports")))
    }

    method SetShowWelcomeDialog(v: bool)
      modifies this
      ensures store == old(store)[SettingKey(Interface, "show_welcome_dialog") := BoolV(v)]
    {
      SetInterfaceSetting("show_welcome_dialog", BoolV(v));
    }

    method SetAutoRefreshInterval(v: int)
      modifies this
      ensures store == old(store)[SettingKey(Interface, "auto_refresh_interval") := IntV(v)]
    {
      SetInterfaceSetting("auto_refresh_interval", IntV(v));
    }

    method SetItemsPerPage(v: int)
      modifies this
      ensures store == old(store)[SettingKey(Interface, "items_per_page") := IntV(v)]
    {
      SetInterfaceSetting("items_per_page", IntV(v));
    }

    method SetConfirmDeletions(v: bool)
      modifies this
      ensures store == old(store)[SettingKey(Interface, "confirm_deletions") := BoolV(v)]
    {
      SetInterfaceSetting("confirm_deletions", BoolV(v));
    }

    method SetDatabasePath(v: string)
      modifies this
      ensures store == old(store)[SettingKey(Database, "path") := StrV(v)]
    {
      SetDatabaseSetting("path", StrV(v));
    }

    method SetAutoBackupEnabled(v: bool)
      modifies this
      ensures store == old(store)[SettingKey(Database, "auto_backup_enabled") := BoolV(v)]
    {
      SetDatabaseSetting("auto_backup_enabled", BoolV(v));
    }

    method SetBackupIntervalDays(v: int)
      modifies this
      ensures store == old(store)[SettingKey(Database, "backup_interval_days") := IntV(v)]
    {
      SetDatabaseSetting("backup_interval_days", IntV(v));
    }

    method SetMaxBackupFiles(v: int)
      modifies this
      ensures store == old(store)[SettingKey(Database, "max_backup_files") := IntV(v)]
    {
      SetDatabaseSetting("max_backup_files", IntV(v));
    }

    method SetDefaultExportFormat(v: string)
      modifies this
      ensures store == old(store)[SettingKey(Export, "default_format") := StrV(v)]
    {
      SetExportSetting("default_format", StrV(v));
    }

    method SetExportDirectory(v: string)
      modifies this
      ensures store == old(store)[SettingKey(Export, "directory") := StrV(v)]
    {
      SetExportSetting("directory", StrV(v));
    }

    /** `get_recent_files(max_files)`, with `os.path.exists` as `pathExists`. */
    method GetRecentFiles(maxFiles: int, pathExists: string -> bool) returns (recent: seq<string>)
      ensures recent == RecentFiles(store, maxFiles, pathExists)
    {
      recent := [];
      var i := 0;
      while i < maxFiles
        invariant 0 <= i && (i == 0 || i <= maxFiles)
        invariant recent == RecentUpTo(store, i, pathExists)
      {
        var v := GetRecentValue("file_" + Digits(i), NoneV);
        if v.StrV? && v.s != "" && pathExists(v.s) {
          recent := recent + [v.s];
        }
        i := i + 1;
      }
    }

    /** `add_recent_file(file_path, max_files)`: the new list fills slots
        `0 ..`, the slots after it up to `max_files - 1` are removed, and
        every other key is left alone. */
    method AddRecentFile(filePath: string, maxFiles: int, pathExists: string -> bool)
      modifies this
      ensures var r := NewRecent(old(store), filePath, maxFiles, pathExists);
        && (forall i: nat :: i < |r| ==> SlotKey(i) in store && store[SlotKey(i)] == StrV(r[i]))
        && (forall i: nat :: |r| <= i < maxFiles ==> SlotKey(i) !in store)
        && (forall k :: !SlotBelow(k, |r|) && !SlotBelow(k, maxFiles) ==>
              (k in store <==> k in old(store)) && (k in store ==> store[k] == old(store)[k]))
    {
      ghost var r := NewRecent(store, filePath, maxFiles, pathExists);
      var recent := GetRecentFiles(maxFiles, pathExists);
      if filePath in recent {
        recent := RemoveFirst(recent, filePath);
      }
      recent := [filePath] + recent;
      recent := PyPrefix(recent, maxFiles);
      assert recent == r;
      WriteSlots(recent);
      ClearSlots(|recent|, maxFiles);
    }

    /** The loop `for i, path in enumerate(recent)`. */
    method WriteSlots(recent: seq<string>)
      modifies this
      ensures forall i: nat :: i < |recent| ==> SlotKey(i) in store && store[SlotKey(i)] == StrV(recent[i])
      ensures forall k :: !SlotBelow(k, |recent|) ==>
        (k in store <==> k in old(store)) && (k in store ==> store[k] == old(store)[k])
    {
      var i := 0;
      while i < |recent|
        invariant 0 <= i <= |recent|
        invariant forall j: nat :: j < i ==> SlotKey(j) in store && store[SlotKey(j)] == StrV(recent[j])
        invariant forall k :: !SlotBelow(k, i) ==>
          (k in store <==> k in old(store)) && (k in store ==> store[k] == old(store)[k])
      {
        forall j: nat | j < i ensures SlotKey(j) != SlotKey(i) {
          SlotKeyInjective(i, j);
        }
        SetRecentValue("file_" + Digits(i), StrV(recent[i]));
        i := i + 1;
      }
    }

    /** The loop `for i in range(len(recent), max_files)`: it removes those
        slots and leaves the ones before `from` and every other key alone. */
    method ClearSlots(from: nat, maxFiles: int)
      modifies this
      ensures forall i: nat :: from <= i < maxFiles ==> SlotKey(i) !in store
      ensures forall i: nat :: i < from ==>
        (SlotKey(i) in store <==> SlotKey(i) in old(store)) && (SlotKey(i) in store ==> store[SlotKey(i)] == old(store)[SlotKey(i)])
      ensures forall k :: !SlotBelow(k, maxFiles) ==>
        (k in store <==> k in old(store)) && (k in store ==> store[k] == old(store)[k])
    {
      var i := from;
      while i < maxFiles
        invariant from <= i && (i == from || i <= maxFiles)
        invariant forall j: nat :: from <= j < i ==> SlotKey(j) !in store
        invariant forall j: nat :: j < from ==>
          (SlotKey(j) in store <==> SlotKey(j) in old(store)) && (SlotKey(j) in store ==> store[SlotKey(j)] == old(store)[SlotKey(j)])
        invariant forall k :: !SlotBelow(k, i) ==>
          (k in store <==> k in old(store)) && (k in store ==> store[k] == old(store)[k])
      {
        forall j: nat | j < from ensures SlotKey(j) != SlotKey(i) {
          SlotKeyInjective(i, j);
        }
        store := store - {SlotKey(i)};
        i := i + 1;
      }
    }
  }

  // ---------------------------------------------------------------------------
  // What add_recent_file guarantees
  // ---------------------------------------------------------------------------

  /** The new list is empty for a non-positive bound and otherwise starts with
      the file just added and is no longer than the bound. */
  lemma NewRecentShape(store: Store, p: string, maxFiles: int, pathExists: string -> bool)
    ensures var r := NewRecent(store, p, maxFiles, pathExists);
      && (maxFiles <= 0 ==> r == [])
      && (maxFiles > 0 ==> 1 <= |r| <= maxFiles && r[0] == p)
  {
  }

  /** When the file was listed at most once before, it is listed exactly once
      afterwards, and the files behind it are the other previously listed
      files in their old order, cut to fit. */
  lemma NewRecentOrder(store: Store, p: string, maxFiles: int, pathExists: string -> bool)
    requires maxFiles > 0
    requires multiset(RecentFiles(store, maxFiles, pathExists))[p] <= 1
    ensures var r := NewRecent(store, p, maxFiles, pathExists);
      var others := Filter(RecentFiles(store, maxFiles, pathExists), (x: string) => x != p);
      && multiset(r)[p] == 1
      && |r| - 1 <= |others|
      && r[1..] == others[..|r| - 1]
  {
    MoveToFront(RecentFiles(store, maxFiles, pathExists), p, maxFiles);
  }

  /** The list-level step of add_recent_file. */
  lemma MoveToFront(s: seq<string>, p: string, maxFiles: int)
    requires maxFiles > 0 && multiset(s)[p] <= 1
    ensures var r := PyPrefix([p] + RemoveFirst(s, p), maxFiles);
      var others := Filter(s, (x: string) => x != p);
      && multiset(r)[p] == 1
      && |r| - 1 <= |others|
      && r[1..] == others[..|r| - 1]
  {
    RemoveFirstIsFilter(s, p);
    var rest := RemoveFirst(s, p);
    var n := if maxFiles < 1 + |rest| then maxFiles else 1 + |rest|;
    assert PyPrefix([p] + rest, maxFiles) == ([p] + rest)[..n];
    ConsPrefix(p, rest, n);
    var kept := rest[..n - 1];
    forall k | 0 <= k < |kept| ensures kept[k] != p {
      assert kept[k] == rest[k];
    }
    CountOfFresh(p, kept);
  }

  lemma ConsPrefix(p: string, rest: seq<string>, n: int)
    requires 1 <= n <= 1 + |rest|
    ensures ([p] + rest)[..n] == [p] + rest[..n - 1]
  {
  }

  lemma CountOfFresh(p: string, t: seq<string>)
    requires forall k :: 0 <= k < |t| ==> t[k] != p
    ensures multiset([p] + t)[p] == 1
  {
    assert p !in t;
    assert p !in multiset(t);
  }

  /** Removing the first occurrence of a value that occurs at most once is
      filtering it out. */
  lemma {:induction false} RemoveFirstIsFilter(s: seq<string>, x: string)
    requires multiset(s)[x] <= 1
    ensures RemoveFirst(s, x) == Filter(s, (y: string) => y != x)
  {
    if s != [] {
      assert s == [s[0]] + s[1..];
      assert multiset(s) == multiset{s[0]} + multiset(s[1..]);
      if s[0] == x {
        assert x !in s[1..];
        FilterNone(s[1..], (y: string) => y == x);
        FilterAll(s[1..], (y: string) => y != x) by {
          forall i | 0 <= i < |s[1..]| ensures s[1..][i] != x {
            assert s[1..][i] in s[1..];
          }
        }
      } else {
        RemoveFirstIsFilter(s[1..], x);
      }
    }
  }

  /** With the file listed twice before, a second copy survives: the two
      slots `["a", "p", "p"]` become `["p", "a", "p"]`. */
  lemma RepeatedEntrySurvives()
    ensures RemoveFirst(["a", "p", "p"], "p") == ["a", "p"]
    ensures PyPrefix(["p"] + RemoveFirst(["a", "p", "p"], "p"), 10) == ["p", "a", "p"]
  {
    assert ["a", "p", "p"][1..] == ["p", "p"];
    assert ["p", "p"][1..] == ["p"];
  }

  /** Reading the slots back: once a list of existing, non-empty files fills
      slots `0 ..` and the slots after it up to the bound are empty,
      `get_recent_files` returns exactly that list. */
  lemma RecentFilesReadsBack(store: Store, r: seq<string>, maxFiles: int, pathExists: string -> bool)
    requires maxFiles > 0 && |r| <= maxFiles
    requires forall i: nat :: i < |r| ==> SlotKey(i) in store && store[SlotKey(i)] == StrV(r[i])
    requires forall i: nat :: |r| <= i < maxFiles ==> SlotKey(i) !in store
    requires forall k :: 0 <= k < |r| ==> r[k] != "" && pathExists(r[k])
    ensures RecentFiles(store, maxFiles, pathExists) == r
  {
    RecentUpToReadsBack(store, r, maxFiles, pathExists, maxFiles);
  }

  lemma {:induction false} RecentUpToReadsBack(store: Store, r: seq<string>, maxFiles: int, pathExists: string -> bool, n: nat)
    requires n <= maxFiles && |r| <= maxFiles
    requires forall i: nat :: i < |r| ==> SlotKey(i) in store && store[SlotKey(i)] == StrV(r[i])
    requires forall i: nat :: |r| <= i < maxFiles ==> SlotKey(i) !in store
    requires forall k :: 0 <= k < |r| ==> r[k] != "" && pathExists(r[k])
    ensures RecentUpTo(store, n, pathExists) == r[..if n < |r| then n else |r|]
  {
    if n > 0 {
      RecentUpToReadsBack(store, r, maxFiles, pathExists, n - 1);
      if n - 1 < |r| {
        assert r[..n] == r[..n - 1] + [r[n - 1]];
      }
    }
  }

  /** Every file of the new list is non-empty and exists when the added file
      is, so after add_recent_file the list reads back unchanged. */
  lemma NewRecentListed(store: Store, p: string, maxFiles: int, pathExists: string -> bool)
    requires p != "" && pathExists(p)
    ensures var r := NewRecent(store, p, maxFiles, pathExists);
      forall k :: 0 <= k < |r| ==> r[k] != "" && pathExists(r[k])
  {
    var old_ := RecentFiles(store, maxFiles, pathExists);
    var rest := RemoveFirst(old_, p);
    forall k | 0 <= k < |rest| ensures rest[k] != "" && pathExists(rest[k]) {
      assert rest[k] in multiset(rest);
      assert rest[k] in multiset(old_);
      var j :| 0 <= j < |old_| && old_[j] == rest[k];
    }
    var all := [p] + rest;
    assert forall k :: 0 <= k < |all| ==> all[k] != "" && pathExists(all[k]);
  }

  /** add_recent_file followed by get_recent_files with the same bound: a
      store in the state add_recent_file leaves lists exactly the new list. */
  lemma AddThenGetRecent(before: Store, after: Store, p: string, maxFiles: int, pathExists: string -> bool)
    requires maxFiles > 0 && p != "" && pathExists(p)
    requires var r := NewRecent(before, p, maxFiles, pathExists);
      && (forall i: nat :: i < |r| ==> SlotKey(i) in after && after[SlotKey(i)] == StrV(r[i]))
      && (forall i: nat :: |r| <= i < maxFiles ==> SlotKey(i) !in after)
    ensures RecentFiles(after, maxFiles, pathExists) == NewRecent(before, p, maxFiles, pathExists)
  {
    NewRecentShape(before, p, maxFiles, pathExists);
    NewRecentListed(before, p, maxFiles, pathExists);
    RecentFilesReadsBack(after, NewRecent(before, p, maxFiles, pathExists), maxFiles, pathExists);
  }

  /** The database and export paths default to files under the application
      data directory. */
  lemma PathDefaults(m: SettingsManager)
    requires m.appDataDir != [] && m.appDataDir[|m.appDataDir| - 1] != '/'
    requires SettingKey(Database, "path") !in m.store && SettingKey(Export, "directory") !in m.store
    ensures m.DatabasePath() == StrV(m.appDataDir + "/autoparts.db")
    ensures m.ExportDirectory() == StrV(m.appDataDir + "/exports")
  {
  }
}
