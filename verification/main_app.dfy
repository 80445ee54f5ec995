/**
 * The single-file server (`main.py`): the module-level `ROOT_DIR`, `IS_RECYCLE_FOLDER` and
 * `SERVER`, the start-up check, the deletion route and the server start and stop. Its
 * listing, info and content routes decide exactly as the functions of `Handlers` do.
 */
module MainApp {
  import opened Wrappers
  import opened Paths
  import opened Store
  import opened MediaTree
  import opened AppConfig
  import opened Handlers

  /** The `uvicorn.Server` a run creates; only its exit flag is modelled. */
  class Server {
    const port: int
    var shouldExit: bool

    constructor (port: int)
      ensures this.port == port && !shouldExit
    {
      this.port := port;
      shouldExit := false;
    }
  }

  /**
   * The module's globals. `rootDir` is `ROOT_DIR`, fixed when the module is loaded.
   * `isRecycleFolder` is the global `IS_RECYCLE_FOLDER`: nothing ever assigns it, since the
   * assignment in the start-up check binds a local name, so it stays false.
   */
  class App {
    const rootDir: string
    var isRecycleFolder: bool
    var server: Server?

    predicate Valid()
      reads this
    {
      !isRecycleFolder
    }

    /** Loading the module, once `load_root_dir()` has produced `rootDir`. */
    constructor (rootDir: string)
      ensures Valid() && this.rootDir == rootDir && server == null
    {
      this.rootDir := rootDir;
      isRecycleFolder := false;
      server := null;
    }

    /**
     * `_check_root_or_exit`: exits when the root is not a directory or has no visible
     * sub-directory; otherwise it creates the recycle bin, and whatever the outcome the
     * global flag keeps its value.
     */
    method CheckRootOrExit(probe: RootProbe) returns (exit: bool, recycleMade: bool)
      requires Valid()
      ensures exit <==> !probe.isDir || TopLevelFolders(probe.tree) == []
      ensures recycleMade <==> !exit && probe.recycleMkdirOk
      ensures Valid()
    {
      if !probe.isDir {
        return true, false;
      }
      var dirs := TopLevelFolders(probe.tree);
      if dirs == [] {
        return true, false;
      }
      // `IS_RECYCLE_FOLDER = True` here binds a local name; the global is untouched.
      var isRecycleFolderLocal := probe.recycleMkdirOk;
      return false, isRecycleFolderLocal;
    }

    /**
     * The `/delete_file` route. The flag is always false, so the warning is always logged
     * before the deletion goes ahead. The session is opened only where rows are removed,
     * and closed after the commit.
     */
    method DeleteFile(s: Session, text: string, env: DeleteEnv) returns (warned: bool, r: Result<Deleted, Failure>)
      requires Valid() && s.Valid() && s.view == s.saved
      modifies s
      ensures warned
      ensures var dst := RecyclePath(ParsePath(rootDir), RECYCLE_FOLDER, ParsePath(text));
        && (!env.srcExists ==> r == Ok(RecordOnly))
        && (env.srcExists && (dst.None? || !env.mkdirOk) ==> r == Err(Unhandled))
        && (env.srcExists && dst.Some? && env.mkdirOk && !env.moveOk ==> r == Err(MoveFailed))
        && (env.srcExists && dst.Some? && env.mkdirOk && env.moveOk ==> r == Ok(Recycled(dst.value)))
      ensures s.saved == if r.Ok? then old(s.saved).(files := WithoutPath(old(s.saved.files), text)) else old(s.saved)
      ensures s.Valid() && s.view == s.saved
      ensures s.closed == (r.Ok? || old(s.closed))
    {
      warned, r := Handlers.DeleteFile(s, ParsePath(rootDir), RECYCLE_FOLDER, isRecycleFolder, text, env);
      if r.Ok? {
        s.Close();
      }
    }

    /** `run_server`: a new server is stored in `SERVER` (its blocking run is not modelled). */
    method RunServer(port: int)
      modifies this
      ensures server != null && fresh(server) && server.port == port && !server.shouldExit
      ensures isRecycleFolder == old(isRecycleFolder)
    {
      server := new Server(port);
    }

    /**
     * `stop_server`: false when no server is stored; otherwise the server is told to exit
     * and forgotten, so a second call straight after returns false.
     */
    method StopServer() returns (stopped: bool)
      modifies this, server
      ensures stopped <==> old(server) != null
      ensures stopped ==> old(server).shouldExit
      ensures server == null
      ensures isRecycleFolder == old(isRecycleFolder)
    {
      if server == null {
        return false;
      }
      server.shouldExit := true;
      server := null;
      return true;
    }
  }

  /** Two stops in a row: the first reports the running server, the second finds none. */
  method StopTwice(app: App) returns (first: bool, second: bool)
    modifies app, app.server
    ensures first <==> old(app.server) != null
    ensures !second
  {
    first := app.StopServer();
    second := app.StopServer();
  }
}
