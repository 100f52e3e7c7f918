/**
 * The folder layout of the collector's storage: a Sapelli folder holding
 * one folder per kind of content, project folders nested inside some of
 * them by name, variant and version, and creation of folders on demand.
 *
 * Paths are absolute Unix paths with `/` as separator. A path turned into
 * a file is normalised the way `java.io.File` does it: runs of separators
 * collapse into one and a trailing separator is dropped, except for the
 * root `/` itself. The file system is an abstract set of existing entries,
 * directories, readable entries and folders that can be made.
 */
module FileStorage {
  import opened Wrappers

  const SEPARATOR: char := '/'

  /** The top-level folders, named as the enumeration's constants. */
  datatype Folder = Data | Downloads | Dumps | Export | Logs | Projects | Temp

  function FolderName(f: Folder): (r: string)
    ensures |r| > 0 && forall i :: 0 <= i < |r| ==> r[i] != SEPARATOR
  {
    match f
    case Data => "Data"
    case Downloads => "Downloads"
    case Dumps => "Dumps"
    case Export => "Export"
    case Logs => "Logs"
    case Projects => "Projects"
    case Temp => "Temp"
  }

  /** `Folders.valueOf`: the folder of a name, if any. */
  function FolderNamed(name: string): (r: Option<Folder>)
    ensures r.Some? ==> FolderName(r.value) == name
  {
    if name == "Data" then Some(Data)
    else if name == "Downloads" then Some(Downloads)
    else if name == "Dumps" then Some(Dumps)
    else if name == "Export" then Some(Export)
    else if name == "Logs" then Some(Logs)
    else if name == "Projects" then Some(Projects)
    else if name == "Temp" then Some(Temp)
    else None
  }

  /** Each folder is found again by its name, so the names tell the folders apart. */
  lemma FolderNameRoundTrip(f: Folder)
    ensures FolderNamed(FolderName(f)) == Some(f)
  {
  }

  datatype FileStorageError =
    | NullFolder                      // NullPointerException "SapelliFolder cannot be null!"
    | NotAnExistingDirectory(path: string)
    | NotAccessible(path: string)
    | CouldNotCreate(path: string)

  datatype Project = Project(name: string, variant: Option<string>, version: string)

  // ---------------------------------------------------------------------
  // Path normalisation
  // ---------------------------------------------------------------------

  /** No two separators in a row. */
  predicate NoDoubleSeparator(p: string)
  {
    forall i :: 0 <= i < |p| - 1 ==> !(p[i] == SEPARATOR && p[i + 1] == SEPARATOR)
  }

  /** A path as a file holds it: no doubled separator, no trailing one unless it is the root. */
  predicate Normalised(p: string)
  {
    NoDoubleSeparator(p) && (|p| > 1 ==> p[|p| - 1] != SEPARATOR)
  }

  /** Collapses each run of separators into one. */
  function Collapse(p: string): (r: string)
    ensures NoDoubleSeparator(r)
    ensures |r| <= |p| && (|r| == 0 <==> |p| == 0)
    ensures |p| > 0 ==> r[|r| - 1] == p[|p| - 1]
    decreases |p|
  {
    if |p| == 0 then ""
    else
      var rest := Collapse(p[..|p| - 1]);
      var c := p[|p| - 1];
      if c == SEPARATOR && |rest| > 0 && rest[|rest| - 1] == SEPARATOR then rest else rest + [c]
  }

  /** `new File(path)`: collapse the separators, then drop a trailing one unless the path is the root. */
  function NewFile(path: string): (r: string)
    ensures Normalised(r)
    ensures |r| <= |path| && (|r| == 0 <==> |path| == 0)
  {
    var c := Collapse(path);
    if |c| > 1 && c[|c| - 1] == SEPARATOR then c[..|c| - 1] else c
  }

  lemma {:induction false} CollapseKeepsSingleSeparators(p: string)
    requires NoDoubleSeparator(p)
    ensures Collapse(p) == p
    decreases |p|
  {
    if |p| > 0 {
      var n := |p| - 1;
      assert NoDoubleSeparator(p[..n]);
      CollapseKeepsSingleSeparators(p[..n]);
      assert p[..n] + [p[n]] == p;
    }
  }

  /** A normalised path is a fixed point of `NewFile`, so normalising twice is normalising once. */
  lemma NewFileIsIdempotent(p: string)
    ensures Normalised(p) ==> NewFile(p) == p
    ensures NewFile(NewFile(p)) == NewFile(p)
  {
    if Normalised(p) {
      CollapseKeepsSingleSeparators(p);
    }
    CollapseKeepsSingleSeparators(NewFile(p));
  }

  /** A separator and a name without separators added to a path that does not end in one keeps it normalised. */
  lemma JoinIsNormalised(base: string, segment: string)
    requires Normalised(base) && |base| > 0 && base[|base| - 1] != SEPARATOR
    requires |segment| > 0 && forall i :: 0 <= i < |segment| ==> segment[i] != SEPARATOR
    ensures Normalised(base + [SEPARATOR] + segment)
  {
    var p := base + [SEPARATOR] + segment;
    forall i | 0 <= i < |p| - 1
      ensures !(p[i] == SEPARATOR && p[i + 1] == SEPARATOR)
    {
      if i < |base| - 1 {
        assert p[i] == base[i] && p[i + 1] == base[i + 1];
      } else if i == |base| - 1 {
        assert p[i] == base[i];
      } else {
        assert p[i + 1] == segment[i - |base|];
      }
    }
    assert p[|p| - 1] == segment[|segment| - 1];
  }

  /** A trailing separator after a normalised path that does not end in one is dropped again. */
  lemma TrailingSeparatorIsDropped(p: string)
    requires Normalised(p) && |p| > 0 && p[|p| - 1] != SEPARATOR
    ensures NewFile(p + [SEPARATOR]) == p
  {
    var q := p + [SEPARATOR];
    assert NoDoubleSeparator(q) by {
      forall i | 0 <= i < |q| - 1
        ensures !(q[i] == SEPARATOR && q[i + 1] == SEPARATOR)
      {
        if i < |p| - 1 {
          assert q[i] == p[i] && q[i + 1] == p[i + 1];
        } else {
          assert q[i] == p[|p| - 1];
        }
      }
    }
    CollapseKeepsSingleSeparators(q);
    assert q[..|q| - 1] == p;
  }

  // ---------------------------------------------------------------------
  // Path rules
  // ---------------------------------------------------------------------

  /** The name of a project's folder: the project name, then a space and the variant if there is one. */
  function ProjectDirName(name: string, variant: Option<string>): string
  {
    name + (if variant.Some? then " " + variant.value else "")
  }

  /**
   * The path `getProjectSpecificSubFolder` builds:
   * `parent/name[ variant]/v<version>/`, ending in a separator.
   */
  function ProjectSubFolderPath(parent: string, name: string, variant: Option<string>, version: string): (r: string)
    ensures |r| >= 3 && r[|r| - 1] == SEPARATOR
    ensures (|version| == 0 || version[|version| - 1] != SEPARATOR) ==> r[|r| - 2] != SEPARATOR
  {
    var tail := "v" + version;
    var r := parent + [SEPARATOR] + ProjectDirName(name, variant) + [SEPARATOR] + tail + [SEPARATOR];
    assert r[|r| - 2] == tail[|tail| - 1];
    r
  }

  /** A path segment: non-empty and free of separators. */
  predicate IsSegment(s: string)
  {
    |s| > 0 && forall i :: 0 <= i < |s| ==> s[i] != SEPARATOR
  }

  /** The folder of a kind of content: the Sapelli folder, a separator and the folder's name. */
  function FolderPath(sapelliFolder: string, which: Folder): string
  {
    NewFile(sapelliFolder + [SEPARATOR] + FolderName(which))
  }

  /** Below any folder other than the root, a content folder is that folder joined with the folder's name. */
  lemma FolderPathIsChild(sapelliFolder: string, which: Folder)
    requires Normalised(sapelliFolder) && |sapelliFolder| > 0 && sapelliFolder[|sapelliFolder| - 1] != SEPARATOR
    ensures FolderPath(sapelliFolder, which) == sapelliFolder + [SEPARATOR] + FolderName(which)
  {
    JoinIsNormalised(sapelliFolder, FolderName(which));
    NewFileIsIdempotent(sapelliFolder + [SEPARATOR] + FolderName(which));
  }

  /** The content folders of one Sapelli folder are all different. */
  lemma FolderPathsAreDistinct(sapelliFolder: string, a: Folder, b: Folder)
    requires Normalised(sapelliFolder) && |sapelliFolder| > 0 && sapelliFolder[|sapelliFolder| - 1] != SEPARATOR
    requires FolderPath(sapelliFolder, a) == FolderPath(sapelliFolder, b)
    ensures a == b
  {
    FolderPathIsChild(sapelliFolder, a);
    FolderPathIsChild(sapelliFolder, b);
    var n := |sapelliFolder| + 1;
    assert FolderName(a) == FolderPath(sapelliFolder, a)[n..];
    assert FolderName(b) == FolderPath(sapelliFolder, b)[n..];
    FolderNameRoundTrip(a);
    FolderNameRoundTrip(b);
  }

  /**
   * The file of a project subfolder: the trailing separator is dropped,
   * leaving `parent/name[ variant]/v<version>`.
   */
  lemma ProjectSubFolderFile(parent: string, name: string, variant: Option<string>, version: string)
    requires Normalised(parent) && |parent| > 0 && parent[|parent| - 1] != SEPARATOR
    requires IsSegment(ProjectDirName(name, variant))
    requires forall i :: 0 <= i < |version| ==> version[i] != SEPARATOR
    ensures NewFile(ProjectSubFolderPath(parent, name, variant, version))
         == parent + [SEPARATOR] + ProjectDirName(name, variant) + [SEPARATOR] + "v" + version
  {
    var dir := ProjectDirName(name, variant);
    var x := parent + [SEPARATOR] + dir;
    JoinIsNormalised(parent, dir);
    var v := "v" + version;
    assert IsSegment(v) by {
      forall i | 0 <= i < |v| ensures v[i] != SEPARATOR {
        if i > 0 { assert v[i] == version[i - 1]; }
      }
    }
    JoinIsNormalised(x, v);
    var y := x + [SEPARATOR] + v;
    assert y[|y| - 1] == v[|v| - 1];
    TrailingSeparatorIsDropped(y);
    assert ProjectSubFolderPath(parent, name, variant, version) == y + [SEPARATOR];
  }

  /**
   * Installation, data and log folders of a project nest the project's
   * subfolder inside the Projects, Data and Logs folders.
   */
  lemma ProjectFoldersNest(sapelliFolder: string, which: Folder, project: Project)
    requires which == Projects || which == Data || which == Logs
    requires Normalised(sapelliFolder) && |sapelliFolder| > 0 && sapelliFolder[|sapelliFolder| - 1] != SEPARATOR
    requires IsSegment(ProjectDirName(project.name, project.variant))
    requires forall i :: 0 <= i < |project.version| ==> project.version[i] != SEPARATOR
    ensures NewFile(ProjectSubFolderPath(FolderPath(sapelliFolder, which), project.name, project.variant, project.version))
         == sapelliFolder + [SEPARATOR] + FolderName(which) + [SEPARATOR]
            + ProjectDirName(project.name, project.variant) + [SEPARATOR] + "v" + project.version
  {
    FolderPathIsChild(sapelliFolder, which);
    var parent := FolderPath(sapelliFolder, which);
    assert parent[|parent| - 1] == FolderName(which)[|FolderName(which)| - 1];
    ProjectSubFolderFile(parent, project.name, project.variant, project.version);
  }

  // ---------------------------------------------------------------------
  // File system and provider
  // ---------------------------------------------------------------------

  /** The part of the file system the provider sees. */
  class FileSystem {
    var existing: set<string>
    var directories: set<string>
    var readable: set<string>
    /** The folders that can be made (their parents permitting). */
    var creatable: set<string>

    /** Directories exist, and every entry has a non-empty path. */
    ghost predicate Valid()
      reads this
    {
      directories <= existing && "" !in existing
    }

    constructor (existing: set<string>, directories: set<string>, readable: set<string>, creatable: set<string>)
      requires directories <= existing && "" !in existing
      ensures Valid()
      ensures this.existing == existing && this.directories == directories
      ensures this.readable == readable && this.creatable == creatable
    {
      this.existing := existing;
      this.directories := directories;
      this.readable := readable;
      this.creatable := creatable;
    }

    /** A folder can be had: it is already a directory, or nothing is there yet and it can be made. */
    predicate CanMake(folder: string)
      reads this
    {
      folder in directories || (folder !in existing && folder in creatable && folder != "")
    }

    /**
     * Creating a folder succeeds when it is already a directory, or when
     * nothing exists there and it can be made; only a new folder changes
     * the file system, and it is a readable directory.
     */
    method CreateFolder(folder: string) returns (ok: bool)
      requires Valid()
      modifies this
      ensures Valid()
      ensures ok <==> old(CanMake(folder))
      ensures existing == old(existing) + (if ok then {folder} else {})
      ensures directories == old(directories) + (if ok then {folder} else {})
      ensures readable == old(readable) + (if ok && old(folder !in directories) then {folder} else {})
      ensures creatable == old(creatable)
      ensures !ok ==> unchanged(this)
    {
      if folder in directories {
        ok := true;
      } else if folder !in existing && folder in creatable && folder != "" {
        existing := existing + {folder};
        directories := directories + {folder};
        readable := readable + {folder};
        ok := true;
      } else {
        ok := false;
      }
    }
  }

  class FileStorageProvider {
    const fs: FileSystem
    const sapelliFolder: string

    /** The folder is a normalised path, as every file is. */
    ghost predicate Valid()
    {
      Normalised(sapelliFolder) && |sapelliFolder| > 0
    }

    /** Stores a folder already checked to be an existing directory. */
    constructor (fs: FileSystem, sapelliFolder: string)
      requires Normalised(sapelliFolder) && |sapelliFolder| > 0
      ensures Valid() && this.fs == fs && this.sapelliFolder == sapelliFolder
    {
      this.fs := fs;
      this.sapelliFolder := sapelliFolder;
    }

    /** `getSapelliFolder`: the folder while it exists and can be read. */
    function GetSapelliFolder(): (r: Result<string, FileStorageError>)
      reads this, fs
      ensures r.Success? <==> sapelliFolder in fs.existing && sapelliFolder in fs.readable
      ensures r.Success? ==> r.value == sapelliFolder
      ensures r.Failure? ==> r.error == NotAccessible(sapelliFolder)
    {
      if sapelliFolder in fs.existing && sapelliFolder in fs.readable then Success(sapelliFolder)
      else Failure(NotAccessible(sapelliFolder))
    }

    /** `getSapelliFolderPath`: the folder's path with one separator appended. */
    function GetSapelliFolderPath(): (r: Result<string, FileStorageError>)
      reads this, fs
      requires Valid()
      ensures r.Success? <==> GetSapelliFolder().Success?
      ensures r.Failure? ==> r == Failure(GetSapelliFolder().error)
      ensures r.Success? && sapelliFolder != [SEPARATOR] ==>
        r.value == sapelliFolder + [SEPARATOR] && r.value[|r.value| - 2] != SEPARATOR
    {
      var folder :- GetSapelliFolder();
      Success(folder + [SEPARATOR])
    }

    /** `createIfNeeded`: the file for `folderPath`, made in the file system when `create` is set. */
    method CreateIfNeeded(folderPath: string, create: bool) returns (r: Result<string, FileStorageError>)
      requires fs.Valid()
      modifies fs
      ensures fs.Valid()
      ensures var folder := NewFile(folderPath);
        (!create ==> r == Success(folder) && unchanged(fs)) &&
        (create ==> (r.Success? <==> old(fs.CanMake(folder)))) &&
        (r.Success? ==> r.value == folder) &&
        (create && r.Success? ==> folder in fs.directories) &&
        (r.Failure? ==> r.error == CouldNotCreate(folder) && unchanged(fs)) &&
        fs.existing == old(fs.existing) + (if create && r.Success? then {folder} else {}) &&
        fs.directories == old(fs.directories) + (if create && r.Success? then {folder} else {}) &&
        fs.readable == old(fs.readable) + (if create && r.Success? && folder !in old(fs.directories) then {folder} else {}) &&
        fs.creatable == old(fs.creatable)
    {
      var folder := NewFile(folderPath);
      if create {
        var ok := fs.CreateFolder(folder);
        if !ok {
          return Failure(CouldNotCreate(folder));
        }
      }
      r := Success(folder);
    }

    /**
     * `getProjectsFolder`, `getDownloadsFolder`, `getDumpFolder`,
     * `getTempFolder`, `getExportFolder`, `getDataFolder` and
     * `getLogsFolder`: the content folder `which`, made if asked for; an
     * inaccessible Sapelli folder fails before the file system is touched.
     */
    method GetFolder(which: Folder, create: bool) returns (r: Result<string, FileStorageError>)
      requires Valid() && fs.Valid()
      modifies fs
      ensures fs.Valid()
      ensures old(GetSapelliFolder()).Failure? ==> r == Failure(NotAccessible(sapelliFolder)) && unchanged(fs)
      ensures var folder := FolderPath(sapelliFolder, which);
        (old(GetSapelliFolder()).Success? ==>
          (!create ==> r == Success(folder) && unchanged(fs)) &&
          (create ==> (r.Success? <==> old(fs.CanMake(folder)))) &&
          (r.Failure? ==> r.error == CouldNotCreate(folder) && unchanged(fs))) &&
        (r.Success? ==> r.value == folder) &&
        (create && r.Success? ==> folder in fs.directories) &&
        fs.existing == old(fs.existing) + (if create && r.Success? then {folder} else {}) &&
        fs.directories == old(fs.directories) + (if create && r.Success? then {folder} else {}) &&
        fs.readable == old(fs.readable) + (if create && r.Success? && folder !in old(fs.directories) then {folder} else {}) &&
        fs.creatable == old(fs.creatable)
    {
      var folder := GetSapelliFolder();
      if folder.Failure? {
        return Failure(folder.error);
      }
      r := CreateIfNeeded(folder.value + [SEPARATOR] + FolderName(which), create);
    }

    /** `getProjectSpecificSubFolder`: the project's folder under `parent`, made if asked for. */
    method GetProjectSpecificSubFolder(parent: string, project: Project, create: bool) returns (r: Result<string, FileStorageError>)
      requires fs.Valid()
      modifies fs
      ensures fs.Valid()
      ensures var path := NewFile(ProjectSubFolderPath(parent, project.name, project.variant, project.version));
        (!create ==> r == Success(path) && unchanged(fs)) &&
        (create ==> (r.Success? <==> old(fs.CanMake(path)))) &&
        (r.Success? ==> r.value == path) &&
        (create && r.Success? ==> path in fs.directories) &&
        (r.Failure? ==> r.error == CouldNotCreate(path) && unchanged(fs)) &&
        fs.existing == old(fs.existing) + (if create && r.Success? then {path} else {}) &&
        fs.directories == old(fs.directories) + (if create && r.Success? then {path} else {}) &&
        fs.readable == old(fs.readable) + (if create && r.Success? && path !in old(fs.directories) then {path} else {}) &&
        fs.creatable == old(fs.creatable)
    {
      r := CreateIfNeeded(ProjectSubFolderPath(parent, project.name, project.variant, project.version), create);
    }

    /**
     * `getProjectInstallationFolder`, `getProjectDataFolder` and
     * `getProjectLogsFolder`: the project's subfolder of the Projects, Data
     * or Logs folder, each made if asked for; any failure stops the chain.
     */
    method GetProjectFolder(which: Folder, project: Project, create: bool) returns (r: Result<string, FileStorageError>)
      requires which == Projects || which == Data || which == Logs
      requires Valid() && fs.Valid()
      modifies fs
      ensures fs.Valid()
      ensures old(GetSapelliFolder()).Failure? ==> r == Failure(NotAccessible(sapelliFolder)) && unchanged(fs)
      ensures var parent := FolderPath(sapelliFolder, which);
        var path := NewFile(ProjectSubFolderPath(parent, project.name, project.variant, project.version));
        (old(GetSapelliFolder()).Success? ==>
          (!create ==> r == Success(path) && unchanged(fs)) &&
          (create && !old(fs.CanMake(parent)) ==> r == Failure(CouldNotCreate(parent)) && unchanged(fs)) &&
          (create && old(fs.CanMake(parent)) ==>
            parent in fs.directories && (r.Success? || r == Failure(CouldNotCreate(path))))) &&
        (r.Success? ==> r.value == path) &&
        (create && r.Success? ==> parent in fs.directories && path in fs.directories) &&
        var madeParent := create && old(GetSapelliFolder()).Success? && old(fs.CanMake(parent));
        fs.directories == old(fs.directories) + (if madeParent then {parent} else {}) + (if create && r.Success? then {path} else {}) &&
        fs.existing == old(fs.existing) + (if madeParent then {parent} else {}) + (if create && r.Success? then {path} else {}) &&
        old(fs.readable) <= fs.readable <= old(fs.readable) + {parent, path} &&
        fs.creatable == old(fs.creatable)
    {
      var parent := GetFolder(which, create);
      if parent.Failure? {
        return Failure(parent.error);
      }
      r := GetProjectSpecificSubFolder(parent.value, project, create);
    }
  }

  /**
   * The constructor's checks: a missing folder is a null-pointer failure,
   * and a folder that is not an existing directory is refused.
   */
  method NewFileStorageProvider(fs: FileSystem, sapelliFolder: Option<string>) returns (r: Result<FileStorageProvider, FileStorageError>)
    requires fs.Valid()
    ensures sapelliFolder.None? ==> r == Failure(NullFolder)
    ensures sapelliFolder.Some? ==> (r.Success? <==> NewFile(sapelliFolder.value) in fs.directories)
    ensures sapelliFolder.Some? && r.Failure? ==> r.error == NotAnExistingDirectory(NewFile(sapelliFolder.value))
    ensures r.Success? ==> r.value.Valid() && r.value.fs == fs && r.value.sapelliFolder == NewFile(sapelliFolder.value)
  {
    if sapelliFolder.None? {
      return Failure(NullFolder);
    }
    var folder := NewFile(sapelliFolder.value);
    if !(folder in fs.existing && folder in fs.directories) {
      return Failure(NotAnExistingDirectory(folder));
    }
    var provider := new FileStorageProvider(fs, folder);
    r := Success(provider);
  }
}
