/**
 * The application settings (`core/config.py`): the media root and the port, loaded from
 * the `config` table with a default for each, the recycle-bin flag set by the start-up
 * check, and the process-wide single instance that holds them.
 */
module AppConfig {
  import opened Wrappers
  import opened Paths
  import opened MediaTree
  import opened ConfigOps

  const DEFAULT_ROOT_DIR := "C:\\Windows\\Web\\Wallpaper"
  const DEFAULT_PORT := 8081
  const RECYCLE_FOLDER := ".recycle"

  /** The RuntimeError of `_load_root_dir`: no stored directory and no default directory. */
  datatype LoadError = NoRootDir

  /**
   * What the start-up check sees of the root: whether it is a directory, its entries, and
   * whether `os.makedirs(root/.recycle, exist_ok=True)` succeeds.
   */
  datatype RootProbe = RootProbe(isDir: bool, tree: Tree, recycleMkdirOk: bool)

  /** A stored root is used only when it is non-empty and names a directory. */
  predicate UsableRoot(stored: Option<string>, dirs: set<string>)
  {
    stored.Some? && stored.value != "" && stored.value in dirs
  }

  /** The directory the fallback chain settles on: the stored one, else the default, else none. */
  function RootDirChoice(stored: Option<string>, dirs: set<string>): Result<string, LoadError>
  {
    if UsableRoot(stored, dirs) then Ok(stored.value)
    else if DEFAULT_ROOT_DIR in dirs then Ok(DEFAULT_ROOT_DIR)
    else Err(NoRootDir)
  }

  /**
   * The chain always ends on an existing directory or fails, prefers the stored value, and
   * fails exactly when neither the stored value nor the default is a directory.
   */
  lemma RootDirChoiceProps(stored: Option<string>, dirs: set<string>)
    ensures var r := RootDirChoice(stored, dirs);
      && (r.Ok? ==> r.value in dirs && r.value != "")
      && (UsableRoot(stored, dirs) ==> r == Ok(stored.value))
      && (r.Err? <==> !UsableRoot(stored, dirs) && DEFAULT_ROOT_DIR !in dirs)
  {
  }

  /** Once the chosen directory is stored, choosing again gives it back with no further write. */
  lemma RootDirChoiceStable(stored: Option<string>, dirs: set<string>)
    requires RootDirChoice(stored, dirs).Ok?
    ensures var v := RootDirChoice(stored, dirs).value;
      UsableRoot(Some(v), dirs) && RootDirChoice(Some(v), dirs) == Ok(v)
  {
  }

  /** `_load_root_dir`: the default is written to the table only when it is the one chosen. */
  method LoadRootDir(db: ConfigTable, dirs: set<string>) returns (r: Result<string, LoadError>)
    modifies db
    ensures r == RootDirChoice(old(db.GetRootDir()), dirs)
    ensures db.entries == if !UsableRoot(old(db.GetRootDir()), dirs) && r.Ok?
                          then old(db.entries)[ROOT_KEY := DEFAULT_ROOT_DIR] else old(db.entries)
    ensures r.Ok? ==> db.GetRootDir() == Some(r.value)
  {
    var stored := db.GetRootDir();
    if stored.Some? && stored.value != "" && stored.value in dirs {
      return Ok(stored.value);
    }
    if DEFAULT_ROOT_DIR in dirs {
      var _ := db.SetRootDir(DEFAULT_ROOT_DIR);
      return Ok(DEFAULT_ROOT_DIR);
    }
    return Err(NoRootDir);
  }

  /** `_load_port`: a stored truthy port, else 8081, written back. */
  method LoadPort(db: ConfigTable) returns (port: nat)
    modifies db
    ensures var p := old(db.GetPort());
      if p.Some? && p.value != 0 then port == p.value && db.entries == old(db.entries)
      else port == DEFAULT_PORT && db.entries == old(db.entries)[PORT_KEY := PortString(DEFAULT_PORT)]
    ensures db.GetPort() == Some(port)
  {
    var p := db.GetPort();
    if p.Some? && p.value != 0 {
      return p.value;
    }
    var _ := db.SetPort(DEFAULT_PORT);
    return DEFAULT_PORT;
  }

  /**
   * The settings object. `initialized` is `_initialized`, set before anything is loaded;
   * `loaded` says that `__init__` got to its end (it stays false after the RuntimeError,
   * and the fields it would have set are then missing).
   */
  class Config {
    var initialized: bool
    var loaded: bool
    var rootDir: string
    var port: int
    var recycleFolder: string
    var isRecycleFolder: bool

    /** Nothing is loaded before `__init__` has started. */
    predicate Valid()
      reads this
    {
      loaded ==> initialized
    }

    /** `object.__new__`: a blank instance. */
    constructor Blank()
      ensures Valid() && !initialized && !loaded
    {
      initialized := false;
      loaded := false;
      rootDir := "";
      port := 0;
      recycleFolder := "";
      isRecycleFolder := false;
    }

    /** `__init__`: runs once per instance; every later call returns at the guard. */
    method Init(db: ConfigTable, dirs: set<string>) returns (raised: bool)
      requires Valid()
      modifies this, db
      ensures Valid()
      ensures old(initialized) ==> !raised && unchanged(this) && db.entries == old(db.entries)
      ensures !old(initialized) ==> initialized
      ensures !old(initialized) ==> var r := RootDirChoice(old(db.GetRootDir()), dirs);
        && (raised <==> r.Err?)
        && (raised ==> !loaded && db.entries == old(db.entries))
        && (!raised ==> loaded && rootDir == r.value && recycleFolder == RECYCLE_FOLDER && !isRecycleFolder
                        && port > 0 && db.GetRootDir() == Some(rootDir) && db.GetPort() == Some(port))
    {
      if initialized {
        return false;
      }
      initialized := true;
      var root := LoadRootDir(db, dirs);
      if root.Err? {
        return true;
      }
      rootDir := root.value;
      var p := LoadPort(db);
      port := p;
      recycleFolder := RECYCLE_FOLDER;
      isRecycleFolder := false;
      loaded := true;
      raised := false;
    }

    /** `save_root_dir`: the field follows the table, and neither moves for an empty path. */
    method SaveRootDir(db: ConfigTable, root: string) returns (err: Option<ConfigError>)
      modifies this, db
      ensures err.Some? <==> root == ""
      ensures rootDir == (if root == "" then old(rootDir) else root)
      ensures db.entries == if root == "" then old(db.entries) else old(db.entries)[ROOT_KEY := root]
      ensures root != "" ==> db.GetRootDir() == Some(rootDir)
      ensures port == old(port) && isRecycleFolder == old(isRecycleFolder) && recycleFolder == old(recycleFolder)
      ensures initialized == old(initialized) && loaded == old(loaded)
    {
      err := db.SetRootDir(root);
      if err.None? {
        rootDir := root;
      }
    }

    /** `save_port`: the field follows the table, and neither moves for a port out of range. */
    method SavePort(db: ConfigTable, p: int) returns (err: Option<ConfigError>)
      modifies this, db
      ensures err.Some? <==> !(MIN_PORT <= p <= MAX_PORT)
      ensures port == (if err.Some? then old(port) else p)
      ensures db.entries == if err.Some? then old(db.entries) else old(db.entries)[PORT_KEY := PortString(p)]
      ensures err.None? ==> db.GetPort() == Some(port)
      ensures rootDir == old(rootDir) && isRecycleFolder == old(isRecycleFolder) && recycleFolder == old(recycleFolder)
      ensures initialized == old(initialized) && loaded == old(loaded)
    {
      err := db.SetPort(p);
      if err.None? {
        port := p;
      }
    }

    /**
     * `check_root_dir`: the root must be a directory with at least one visible
     * sub-directory; only then is the recycle bin created and the flag set to the outcome.
     */
    method CheckRootDir(probe: RootProbe) returns (ok: bool)
      modifies this
      ensures ok <==> probe.isDir && TopLevelFolders(probe.tree) != []
      ensures isRecycleFolder == if ok then probe.recycleMkdirOk else old(isRecycleFolder)
      ensures rootDir == old(rootDir) && port == old(port) && recycleFolder == old(recycleFolder)
      ensures initialized == old(initialized) && loaded == old(loaded)
    {
      if !probe.isDir {
        return false;
      }
      var dirs := TopLevelFolders(probe.tree);
      if dirs == [] {
        return false;
      }
      isRecycleFolder := probe.recycleMkdirOk;
      return true;
    }
  }

  /** The class attribute `_instance` of `Config`. */
  class ConfigRegistry {
    var instance: Config?

    predicate Valid()
      reads this, instance
    {
      instance != null ==> instance.Valid() && instance.initialized
    }

    constructor ()
      ensures Valid() && instance == null
    {
      instance := null;
    }

    /**
     * `Config()`: the first call creates and stores the instance before initialising it,
     * so even a call whose initialisation raised leaves it stored; every later call returns
     * that same instance and loads nothing.
     */
    method Get(db: ConfigTable, dirs: set<string>) returns (c: Config, raised: bool)
      requires Valid()
      modifies this, db, instance
      ensures Valid() && instance == c
      ensures old(instance) != null ==> c == old(instance) && !raised && unchanged(c) && db.entries == old(db.entries)
      ensures old(instance) == null ==>
        && fresh(c) && c.initialized
        && (raised <==> RootDirChoice(old(db.GetRootDir()), dirs).Err?)
        && (raised <==> !c.loaded)
    {
      if instance == null {
        c := new Config.Blank();
        instance := c;
      } else {
        c := instance;
      }
      raised := c.Init(db, dirs);
    }
  }
}
