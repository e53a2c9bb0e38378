/**
 * The launcher's state and the operations the buttons run: loading the stored profiles
 * (main.py:22-56), adding a profile from the clipboard (main.py:179-199), deleting one
 * (main.py:202-218), starting Xray with a profile (main.py:267-323), streaming its output
 * into the log (main.py:310-320) and stopping it (main.py:326-341).
 *
 * The source keeps this state in module globals: `profiles`, `xray_process`,
 * `stop_log_thread`, `current_profile_info` and the log widget's text. Here they are the
 * fields of one `App` object, together with the contents of the `configs` directory.
 * Everything the source asks the outside world becomes a parameter: the clipboard text,
 * the list selection, the answer to a confirmation, whether a file operation or spawning
 * the process succeeds, and the lines the process prints.
 */
module Launcher {
  import opened Wrappers
  import opened PyStr
  import opened XrayConfig
  import opened VlessLink
  import opened ProfileFiles

  /** A registry entry: `{"config_file": ..., "info": ...}`. */
  datatype Entry = Entry(configFile: string, info: Summary)

  /** A file the loader reads: its path and its document, `None` when `json.load` fails. */
  datatype StoredFile = StoredFile(path: string, doc: Option<Config>)

  /** The profile a stored file yields, or `None` when the loader skips it (main.py:26-56). */
  function Loaded(f: StoredFile): (r: Option<(string, Entry)>)
    ensures r.Some? ==> r.value.0 == Stem(f.path) && r.value.1.configFile == f.path
    ensures r.Some? <==> f.doc.Some? && Reconstruct(f.doc.value).Some?
  {
    match f.doc
    case None => None
    case Some(c) =>
      match Reconstruct(c)
      case None => None
      case Some(info) => Some((Stem(f.path), Entry(f.path, info)))
  }

  /** One iteration of the loader's loop. */
  function LoadOne(profiles: map<string, Entry>, f: StoredFile): map<string, Entry> {
    match Loaded(f)
    case None => profiles
    case Some((name, entry)) => profiles[name := entry]
  }

  /** The registry after the loader's loop over `files`, in order. */
  function LoadAll(profiles: map<string, Entry>, files: seq<StoredFile>): map<string, Entry>
    decreases |files|
  {
    if files == [] then profiles else LoadAll(LoadOne(profiles, files[0]), files[1..])
  }

  /** What `glob` lists of a directory listing, in listing order. */
  function Glob(listing: seq<string>): (r: seq<string>)
    ensures forall p :: p in r <==> p in listing && GlobMatches(Basename(p))
  {
    if listing == [] then []
    else (if GlobMatches(Basename(listing[0])) then [listing[0]] else []) + Glob(listing[1..])
  }

  /** The listed paths paired with their documents. */
  function Documents(paths: seq<string>, files: map<string, Option<Config>>): (r: seq<StoredFile>)
    requires forall p :: p in paths ==> p in files
    ensures |r| == |paths|
    ensures forall i :: 0 <= i < |paths| ==> r[i] == StoredFile(paths[i], files[paths[i]])
  {
    if paths == [] then [] else [StoredFile(paths[0], files[paths[0]])] + Documents(paths[1..], files)
  }

  /** Loading one more file is one more turn of the loop. */
  lemma LoadAllSnoc(profiles: map<string, Entry>, files: seq<StoredFile>, f: StoredFile)
    ensures LoadAll(profiles, files + [f]) == LoadOne(LoadAll(profiles, files), f)
  {
    LoadAllAppend(profiles, files, [f]);
    assert [f][1..] == [];
  }

  /** Loading on top of a registry overrides it with what loading alone finds. */
  lemma {:induction false} LoadAllOverrides(profiles: map<string, Entry>, files: seq<StoredFile>)
    ensures LoadAll(profiles, files) == profiles + LoadAll(map[], files)
    decreases |files|
  {
    if files == [] {
      assert profiles + map[] == profiles;
    } else {
      var f := files[0];
      LoadAllOverrides(LoadOne(profiles, f), files[1..]);
      LoadAllOverrides(LoadOne(map[], f), files[1..]);
      var rest := LoadAll(map[], files[1..]);
      match Loaded(f)
      case None =>
        assert map[] + rest == rest;
      case Some((name, entry)) =>
        UpdateThenUnion(profiles, name, entry, rest);
    }
  }

  lemma UpdateThenUnion(m: map<string, Entry>, k: string, v: Entry, r: map<string, Entry>)
    ensures m[k := v] + r == m + (map[k := v] + r)
  {
  }

  /** Loading the same files twice gives what loading them once gives. */
  lemma LoadAllIdempotent(profiles: map<string, Entry>, files: seq<StoredFile>)
    ensures LoadAll(LoadAll(profiles, files), files) == LoadAll(profiles, files)
  {
    LoadAllOverrides(profiles, files);
    LoadAllOverrides(LoadAll(profiles, files), files);
    var found := LoadAll(map[], files);
    assert profiles + found + found == profiles + found;
  }

  /**
   * A name is in the loaded registry exactly when it was there before or some listed file
   * loads under it.
   */
  lemma {:induction false} LoadAllNames(profiles: map<string, Entry>, files: seq<StoredFile>, name: string)
    ensures name in LoadAll(profiles, files) <==>
      name in profiles || exists i :: 0 <= i < |files| && Loaded(files[i]).Some? && Loaded(files[i]).value.0 == name
    decreases |files|
  {
    if files != [] {
      LoadAllNames(LoadOne(profiles, files[0]), files[1..], name);
      if exists i :: 0 <= i < |files| - 1 && Loaded(files[1..][i]).Some? && Loaded(files[1..][i]).value.0 == name {
        var i :| 0 <= i < |files| - 1 && Loaded(files[1..][i]).Some? && Loaded(files[1..][i]).value.0 == name;
        assert files[1..][i] == files[i + 1];
      }
      if exists i :: 0 <= i < |files| && Loaded(files[i]).Some? && Loaded(files[i]).value.0 == name {
        var i :| 0 <= i < |files| && Loaded(files[i]).Some? && Loaded(files[i]).value.0 == name;
        if i > 0 {
          assert files[1..][i - 1] == files[i];
        }
      }
    }
  }

  /** Some `*.json` file of the directory reads, reconstructs and loads under `name`. */
  ghost predicate StoredUnder(files: map<string, Option<Config>>, name: string) {
    exists p :: p in files && GlobMatches(Basename(p)) && Loaded(StoredFile(p, files[p])).Some? && Stem(p) == name
  }

  /**
   * Loading what `glob` lists of the whole directory adds to the registry exactly the
   * stems of the stored `*.json` files that read and reconstruct: none is missed.
   */
  lemma DirectoryLoaded(profiles: map<string, Entry>, listing: seq<string>, files: map<string, Option<Config>>, name: string)
    requires forall p :: p in listing <==> p in files
    ensures name in LoadAll(profiles, Documents(Glob(listing), files)) <==> name in profiles || StoredUnder(files, name)
  {
    var paths := Glob(listing);
    var docs := Documents(paths, files);
    LoadAllNames(profiles, docs, name);
    if exists i :: 0 <= i < |docs| && Loaded(docs[i]).Some? && Loaded(docs[i]).value.0 == name {
      var i :| 0 <= i < |docs| && Loaded(docs[i]).Some? && Loaded(docs[i]).value.0 == name;
      var p := paths[i];
      assert docs[i] == StoredFile(p, files[p]);
      assert p in paths;
    }
    if StoredUnder(files, name) {
      var p :| p in files && GlobMatches(Basename(p)) && Loaded(StoredFile(p, files[p])).Some? && Stem(p) == name;
      assert p in paths;
      var i :| 0 <= i < |paths| && paths[i] == p;
      assert docs[i] == StoredFile(p, files[p]);
    }
  }

  lemma {:induction false} LoadAllAppend(profiles: map<string, Entry>, a: seq<StoredFile>, b: seq<StoredFile>)
    ensures LoadAll(profiles, a + b) == LoadAll(LoadAll(profiles, a), b)
    decreases |a|
  {
    if a == [] {
      assert a + b == b;
    } else {
      assert (a + b)[0] == a[0] && (a + b)[1..] == a[1..] + b;
      LoadAllAppend(LoadOne(profiles, a[0]), a[1..], b);
    }
  }

  /** A file the loader skips has no effect on the others: per-file failures are isolated. */
  lemma SkippedFileIgnored(profiles: map<string, Entry>, before: seq<StoredFile>, f: StoredFile, after: seq<StoredFile>)
    requires Loaded(f).None?
    ensures LoadAll(profiles, before + [f] + after) == LoadAll(profiles, before + after)
  {
    LoadAllAppend(profiles, before + [f], after);
    LoadAllAppend(profiles, before, [f]);
    LoadAllAppend(profiles, before, after);
    assert LoadAll(LoadAll(profiles, before), [f]) == LoadAll(profiles, before);
  }

  /**
   * The file written for a parsed link reads back as a profile named by the safe name, with
   * the parse-time summary except for the case of `security`.
   */
  lemma SavedProfileReloads(url: string)
    requires ParseVlessUrl(url).Success?
    requires Sanitise(ParseVlessUrl(url).value.name) != ""
    ensures var p := ParseVlessUrl(url).value; var safe := Sanitise(p.name);
      && GlobMatches(Basename(ConfigPath(safe)))
      && Loaded(StoredFile(ConfigPath(safe), Some(p.config)))
         == Some((safe, Entry(ConfigPath(safe), p.info.(security := "reality"))))
  {
    SafeNameRoundTrip(ParseVlessUrl(url).value.name);
    ParsedDocument(url);
  }

  /** A running engine process, started on a config file. */
  datatype Process = Process(configFile: string)

  datatype AddOutcome =
    | ClipboardUnavailable            // `clipboard_get()` raised
    | Rejected(error: ParseError)     // the parser raised
    | AlreadyExists(name: string)     // a profile of that name is registered
    | WriteFailed(path: string)       // writing the file raised: nothing is registered
    | Added(name: string, path: string)

  datatype DeleteOutcome =
    | NothingSelected
    | Cancelled
    | Deleted(name: string)
    | DeletedFileKept(name: string, path: string)  // the file could not be removed: a warning

  datatype StartOutcome =
    | AlreadyRunning
    | NoSelection
    | ConfigMissing(path: string)
    | SpawnFailed
    | Started(argv: seq<string>)    // the command line the engine was spawned with

  /** The file `save_profile_config` writes a profile of this name to (main.py:166-167). */
  function ProfilePath(name: string): string {
    ConfigPath(Sanitise(name))
  }

  /**
   * The outcome and the new registry and directory when a parsed profile is added with
   * its document going to `path`: a registered name is refused, a failed write registers
   * nothing, and otherwise the document is saved and the profile registered under its
   * raw name.
   */
  ghost predicate Registered(
    profiles: map<string, Entry>, files: map<string, Option<Config>>, parsed: Parsed, path: string,
    saveOk: bool, outcome: AddOutcome, profiles': map<string, Entry>, files': map<string, Option<Config>>)
  {
    if parsed.name in profiles then
      outcome == AlreadyExists(parsed.name) && profiles' == profiles && files' == files
    else if !saveOk then
      outcome == WriteFailed(path) && profiles' == profiles && files' == files
    else
      && outcome == Added(parsed.name, path)
      && profiles' == profiles[parsed.name := Entry(path, parsed.info)]
      && files' == files[path := Some(parsed.config)]
  }

  /**
   * The outcome and new state of adding the link `url`: a refused link changes nothing, and
   * an accepted one is registered with its document saved under the file of its safe name.
   */
  ghost predicate LinkAdded(
    profiles: map<string, Entry>, files: map<string, Option<Config>>, url: string, saveOk: bool,
    outcome: AddOutcome, profiles': map<string, Entry>, files': map<string, Option<Config>>)
  {
    match ParseVlessUrl(url)
    case Failure(e) => outcome == Rejected(e) && profiles' == profiles && files' == files
    case Success(parsed) => Registered(profiles, files, parsed, ProfilePath(parsed.name), saveOk, outcome, profiles', files')
  }

  class App {
    /** `profiles`: profile name to entry. */
    var profiles: map<string, Entry>
    /** The `configs` directory: path to document, `None` for a file that is not valid JSON. */
    var files: map<string, Option<Config>>
    /** `xray_process`. */
    var process: Option<Process>
    /** `stop_log_thread`. */
    var stopFlag: bool
    /** The lines shown in the log widget. */
    var log: seq<string>
    /** `current_profile_info`. */
    var currentInfo: Option<Summary>

    /** The stop flag is only raised while no process is recorded. */
    ghost predicate Valid()
      reads this`process, this`stopFlag
    {
      process.Some? ==> !stopFlag
    }

    /** The state at start-up, before the stored profiles are loaded. */
    constructor (disk: map<string, Option<Config>>)
      ensures Valid()
      ensures profiles == map[] && files == disk
      ensures process == None && !stopFlag && log == [] && currentInfo == None
    {
      profiles := map[];
      files := disk;
      process := None;
      stopFlag := false;
      log := [];
      currentInfo := None;
    }

    /**
     * `load_existing_profiles()`: every file `glob` lists, in the order of `listing` (the
     * directory listing, which holds every stored file), is read and registered, or
     * skipped. So every stored `*.json` file that reconstructs is registered under its stem.
     */
    method LoadExisting(listing: seq<string>)
      requires forall p :: p in listing <==> p in files
      modifies this`profiles
      ensures profiles == LoadAll(old(profiles), Documents(Glob(listing), files))
      ensures forall name :: name in profiles <==> name in old(profiles) || StoredUnder(files, name)
    {
      var paths := Glob(listing);
      assert forall p :: p in paths ==> p in files;
      LoadFiles(Documents(paths, files));
      forall name | true
        ensures name in profiles <==> name in old(profiles) || StoredUnder(files, name)
      {
        DirectoryLoaded(old(profiles), listing, files, name);
      }
    }

    /** The loop of `load_existing_profiles()` over the files read, in order. */
    method LoadFiles(docs: seq<StoredFile>)
      modifies this`profiles
      ensures profiles == LoadAll(old(profiles), docs)
    {
      var i := 0;
      while i < |docs|
        invariant 0 <= i <= |docs|
        invariant profiles == LoadAll(old(profiles), docs[..i])
      {
        LoadAllSnoc(old(profiles), docs[..i], docs[i]);
        assert docs[..i + 1] == docs[..i] + [docs[i]];
        profiles := LoadOne(profiles, docs[i]);
        i := i + 1;
      }
      assert docs[..i] == docs;
    }

    /** `add_profile_from_clipboard()`: the clipboard text, stripped, is added as a link. */
    method AddFromClipboard(clipboard: Option<string>, saveOk: bool) returns (outcome: AddOutcome)
      modifies this`profiles, this`files
      ensures clipboard.None? ==>
        outcome == ClipboardUnavailable && profiles == old(profiles) && files == old(files)
      ensures clipboard.Some? ==>
        LinkAdded(old(profiles), old(files), Strip(clipboard.value), saveOk, outcome, profiles, files)
    {
      if clipboard.None? {
        return ClipboardUnavailable;
      }
      outcome := AddLink(Strip(clipboard.value), saveOk);
    }

    /** The rest of `add_profile_from_clipboard()`, from the parse of the link `url` on. */
    method AddLink(url: string, saveOk: bool) returns (outcome: AddOutcome)
      modifies this`profiles, this`files
      ensures LinkAdded(old(profiles), old(files), url, saveOk, outcome, profiles, files)
    {
      var r := ParseVlessUrl(url);
      if r.Failure? {
        return Rejected(r.error);
      }
      outcome := Register(r.value, ProfilePath(r.value.name), saveOk);
    }

    /**
     * The part of `add_profile_from_clipboard()` after a successful parse: refuse a name
     * that is registered, else save the document to `path` (the file name the caller
     * computes with `ProfilePath`) and register the profile.
     */
    method Register(parsed: Parsed, path: string, saveOk: bool) returns (outcome: AddOutcome)
      modifies this`profiles, this`files
      ensures Registered(old(profiles), old(files), parsed, path, saveOk, outcome, profiles, files)
    {
      if parsed.name in profiles {
        return AlreadyExists(parsed.name);
      }
      if !saveOk {
        return WriteFailed(path);
      }
      files := files[path := Some(parsed.config)];
      profiles := profiles[parsed.name := Entry(path, parsed.info)];
      outcome := Added(parsed.name, path);
    }

    /** `delete_selected_profile()`: the selection is a name the list shows, so it is registered. */
    method DeleteSelected(selection: Option<string>, confirmed: bool, removeOk: bool) returns (outcome: DeleteOutcome)
      requires selection.Some? ==> selection.value in profiles
      modifies this`profiles, this`files
      ensures selection.None? ==>
        outcome == NothingSelected && profiles == old(profiles) && files == old(files)
      ensures selection.Some? && !confirmed ==>
        outcome == Cancelled && profiles == old(profiles) && files == old(files)
      ensures selection.Some? && confirmed ==>
        var name := selection.value; var path := old(profiles)[name].configFile;
        && profiles == old(profiles) - {name}
        && (path !in old(files) ==> outcome == Deleted(name) && files == old(files))
        && (path in old(files) && removeOk ==> outcome == Deleted(name) && files == old(files) - {path})
        && (path in old(files) && !removeOk ==> outcome == DeletedFileKept(name, path) && files == old(files))
    {
      if selection.None? {
        return NothingSelected;
      }
      var name := selection.value;
      if !confirmed {
        return Cancelled;
      }
      var path := profiles[name].configFile;
      outcome := Deleted(name);
      if path in files {
        if removeOk {
          files := files - {path};
        } else {
          outcome := DeletedFileKept(name, path);
        }
      }
      profiles := profiles - {name};
    }

    /** `start_xray()`. */
    method Start(selection: Option<string>, spawnOk: bool) returns (outcome: StartOutcome)
      requires Valid()
      requires selection.Some? ==> selection.value in profiles
      modifies this`process, this`stopFlag, this`log, this`currentInfo
      ensures Valid()
      ensures old(process).Some? ==>
        && outcome == AlreadyRunning
        && process == old(process) && stopFlag == old(stopFlag) && log == old(log) && currentInfo == old(currentInfo)
      ensures old(process).None? && selection.None? ==>
        && outcome == NoSelection
        && process == None && stopFlag == old(stopFlag) && log == old(log) && currentInfo == old(currentInfo)
      ensures old(process).None? && selection.Some? ==>
        var entry := old(profiles)[selection.value];
        && (entry.configFile !in files ==>
              && outcome == ConfigMissing(entry.configFile)
              && process == None && stopFlag == old(stopFlag) && log == old(log) && currentInfo == old(currentInfo))
        && (entry.configFile in files && !spawnOk ==>
              && outcome == SpawnFailed
              && process == None && stopFlag == old(stopFlag) && log == old(log) && currentInfo == old(currentInfo))
        && (entry.configFile in files && spawnOk ==>
              && outcome == Started(["xray.exe", "-config", entry.configFile])
              && process == Some(Process(entry.configFile))
              && !stopFlag && log == [] && currentInfo == Some(entry.info))
    {
      if process.Some? {
        return AlreadyRunning;
      }
      if selection.None? {
        return NoSelection;
      }
      var entry := profiles[selection.value];
      if entry.configFile !in files {
        return ConfigMissing(entry.configFile);
      }
      if !spawnOk {
        process := None;
        return SpawnFailed;
      }
      process := Some(Process(entry.configFile));
      currentInfo := Some(entry.info);
      log := [];
      stopFlag := false;
      outcome := Started(["xray.exe", "-config", entry.configFile]);
    }

    /**
     * One turn of the log reader's loop: it checks the stop flag, reads a line from the
     * recorded process (`line`, empty at end of output) and appends it. It returns whether
     * the loop goes on. With no recorded process, `xray_process.stdout` raises and the
     * reader ends.
     */
    method ReaderStep(line: string) returns (more: bool)
      modifies this`log
      ensures more <==> !stopFlag && process.Some? && line != ""
      ensures log == if more then old(log) + [line] else old(log)
    {
      if stopFlag || process.None? || line == "" {
        return false;
      }
      log := log + [line];
      more := true;
    }

    /**
     * `read_log()` running without interference: it reads the lines `output` of the
     * process until the first empty one (end of output), appending each.
     */
    method ReadLog(output: seq<string>) returns (count: nat)
      modifies this`log
      ensures !stopFlag && process.Some? ==> log == old(log) + UntilEof(output) && count == |UntilEof(output)|
      ensures stopFlag || process.None? ==> log == old(log) && count == 0
    {
      count := 0;
      var more := true;
      while more && count < |output|
        invariant count <= |output|
        invariant forall i :: 0 <= i < count ==> output[i] != ""
        invariant !more && !stopFlag && process.Some? ==> count < |output| && output[count] == ""
        invariant !stopFlag && process.Some? ==> log == old(log) + output[..count]
        invariant stopFlag || process.None? ==> log == old(log) && count == 0
        decreases |output| - count, more
      {
        var line := output[count];
        more := ReaderStep(line);
        if more {
          assert output[..count + 1] == output[..count] + [line];
          count := count + 1;
        }
      }
      if !stopFlag && process.Some? {
        UntilEofPrefix(output, count);
      }
    }

    /** `stop_xray()`: terminates and waits for the process, and raises the stop flag. */
    method Stop() returns (wasRunning: bool)
      modifies this`process, this`stopFlag
      ensures Valid()
      ensures wasRunning <==> old(process).Some?
      ensures process == None
      ensures stopFlag == (old(process).Some? || old(stopFlag))
    {
      if process.None? {
        return false;
      }
      stopFlag := true;
      process := None;
      wasRunning := true;
    }
  }

  /** The lines before the first empty one: what the reader shows of an output. */
  function UntilEof(output: seq<string>): (r: seq<string>)
    ensures |r| <= |output| && r == output[..|r|]
    ensures forall i :: 0 <= i < |r| ==> r[i] != ""
    ensures |r| < |output| ==> output[|r|] == ""
  {
    if output == [] || output[0] == "" then []
    else [output[0]] + UntilEof(output[1..])
  }

  lemma UntilEofPrefix(output: seq<string>, n: nat)
    requires n <= |output|
    requires forall i :: 0 <= i < n ==> output[i] != ""
    requires n == |output| || output[n] == ""
    ensures UntilEof(output) == output[..n]
  {
    var r := UntilEof(output);
  }
}
