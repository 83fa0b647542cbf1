/**
 * The `copy` subcommand of the `clp-utils` WP-CLI command (class Clp): it
 * locates the WordPress installations of a source and a destination user,
 * asks the operator to confirm, copies the files with rsync, fixes ownership
 * and permissions on the destination, and moves the database across
 * (export, clean, import, search-replace).
 *
 * Every external effect is an `Event` in an ordered trace; what the
 * outside world answers (the filesystem, WP-CLI's query output, the
 * operator, rsync) comes from an `Env`.
 */
module Clp {
  import opened Wrappers
  import Php
  import Text
  import FS = FileSystem

  /** Named arguments as WP-CLI hands them over (`--key=value`). */
  type Args = map<string, string>

  const ConfigFileName := "wp-config.php"
  const SearchDepth: nat := 3
  const TransferFile := "db.sql"
  const DefaultFileMode := "660"
  const DefaultFolderMode := "770"

  const BaseOptions := ["--archive", "--recursive", "--compress", "--progress", "--exclude=wp-config.php"]
  const ExcludePlugins := "--exclude=wp-content/plugins/*"
  const ExcludeThemes := "--exclude=wp-content/themes/*"
  const ExcludeUploads := "--exclude=wp-content/uploads/*"

  /**
   * What the command observes: the filesystem (rooted at "/"), the standard
   * output of `wp config get DB_NAME` and `wp option get siteurl` for each
   * `--path` value (a missing key is a failed query, which yields nothing
   * since `exit_error` is off), the operator's answer to the prompt, whether
   * `proc_open` can start rsync, and what rsync writes on standard output.
   */
  datatype Env = Env(
    fs: FS.Node,
    dbNames: map<string, string>,
    siteUrls: map<string, string>,
    operatorConfirms: bool,
    rsyncStarts: bool,
    rsyncOutput: string)

  /** The record `find_wordpress` returns. */
  datatype Config = Config(path: string, pathFolder: string, dbName: string, url: string)

  /** One external step, in the order the command takes it. */
  datatype Event =
    | Find(start: string, maxDepth: nat, name: string)
    | ConfigGet(key: string, path: string)
    | OptionGet(key: string, path: string)
    | Confirm
    | ProgressStart(total: int)
    | Rsync(options: seq<string>, source: string, destination: string)
    | Tick
    | Chown(owner: string, group: string, path: string)
    | ChmodDirs(path: string, mode: string)
    | ChmodFiles(path: string, mode: string)
    | DbExport(file: string, path: string)
    | DbClean(path: string)
    | DbImport(file: string, path: string)
    | SearchReplace(from: string, to: string, path: string)
  {
    /** The steps that change the filesystem or a database. */
    predicate IsMutating()
    {
      Rsync? || Chown? || ChmodDirs? || ChmodFiles? || DbExport? || DbClean? || DbImport? || SearchReplace?
    }

    /** The steps run through `WP_CLI::runcommand`. */
    predicate IsWpCli()
    {
      ConfigGet? || OptionGet? || DbExport? || DbClean? || DbImport? || SearchReplace?
    }
  }

  /** Why a run stopped at `WP_CLI::error`. */
  datatype Cause =
    | MissingEnvironments
    | NoSourceHome
    | NoDestinationHome
    | FileCountFailed(dir: string)
    | RsyncNotStarted

  datatype End = Completed | Declined | Halted(cause: Cause)

  /** The trace of one run and how it ended. */
  datatype Run = Run(trace: seq<Event>, end: End)

  /** The message `WP_CLI::error` prints; after a failed count the exception's own text follows, which is left out. */
  function Message(c: Cause): string
  {
    match c
    case MissingEnvironments => "Source and destination environments are required."
    case NoSourceHome => "Source environment does not exist."
    case NoDestinationHome => "Destination environment does not exist."
    case FileCountFailed(_) => "Failed to synchronize files: "
    case RsyncNotStarted => "Error while executing rsync."
  }

  /** `isset($assoc_args[key]) ? $assoc_args[key] : default`. */
  function ArgOr(args: Args, key: string, default: string): string
  {
    if key in args then args[key] else default
  }

  function Ticks(n: nat): (r: seq<Event>)
    ensures |r| == n && forall i :: 0 <= i < n ==> r[i] == Tick
  {
    seq(n, _ => Tick)
  }

  /** Decimal digits of `n`, as PHP writes an int into a string. */
  function NatToString(n: nat): string
  {
    var d := (48 + n % 10) as char;
    if n < 10 then [d] else NatToString(n / 10) + [d]
  }

  /** The number a string of decimal digits denotes, read from the last digit back. */
  function DecimalValue(s: string): int
  {
    if s == [] then 0 else 10 * DecimalValue(s[..|s| - 1]) + (s[|s| - 1] as int - 48)
  }

  /** The shell command line of each step run through `shell_exec` or `proc_open`. */
  function ShellCommand(e: Event): string
    requires e.Find? || e.Rsync? || e.Chown? || e.ChmodDirs? || e.ChmodFiles?
  {
    match e
    case Find(start, depth, name) =>
      "find " + start + " -maxdepth " + NatToString(depth) + " -name " + name + " -print -quit"
    case Rsync(options, source, destination) =>
      "rsync " + Text.Join(options, ' ') + " " + source + " " + destination
    case Chown(owner, group, path) => "chown -R " + owner + ":" + group + " " + path
    case ChmodDirs(path, mode) =>
      "find " + Php.EscapeShellArg(path) + " -type d -print0 | xargs -0 chmod " + Php.EscapeShellArg(mode)
    case ChmodFiles(path, mode) =>
      "find " + Php.EscapeShellArg(path) + " -type f -print0 | xargs -0 chmod " + Php.EscapeShellArg(mode)
  }

  /** The command string and `command_args` each WP-CLI step hands to `WP_CLI::runcommand`. */
  function WpCliCall(e: Event): (string, seq<string>)
    requires e.IsWpCli()
  {
    match e
    case ConfigGet(key, path) => ("config get " + key, ["--path=" + path, "--allow-root"])
    case OptionGet(key, path) => ("option get " + key, ["--path=" + path, "--allow-root"])
    case DbExport(file, path) => ("db export " + file, ["--path=" + path, "--allow-root"])
    case DbClean(path) => ("db clean", ["--yes", "--path=" + path, "--allow-root"])
    case DbImport(file, path) => ("db import " + file, ["--path=" + path, "--allow-root"])
    case SearchReplace(from, to, path) =>
      ("search-replace " + from + " " + to, ["--all-tables", "--path=" + path, "--allow-root"])
  }

  // ---------------------------------------------------------------------
  // find_wordpress

  /** The WP-CLI answer for `--path=<path>`; a failed query yields "". */
  function Query(answers: map<string, string>, path: string): string
  {
    if path in answers then answers[path] else ""
  }

  function HtdocsOf(user: string): string
  {
    "/home/" + user + "/htdocs"
  }

  datatype Located = Located(config: Config, events: seq<Event>)

  /**
   * `find_wordpress`: the first wp-config.php `find` reports below
   * /home/<user>/htdocs, its directory, and the two queries scoped to that
   * directory. An empty `find` result is not checked for: the folder is then
   * `dirname("")`, that is "".
   */
  function FindWordpress(env: Env, user: string): (r: Located)
    ensures r.config.path == FS.FindOutput(env.fs, HtdocsOf(user), ConfigFileName, SearchDepth)
    ensures r.config.pathFolder == Php.Dirname(r.config.path)
    ensures r.events == [Find(HtdocsOf(user), SearchDepth, ConfigFileName),
                         ConfigGet("DB_NAME", r.config.pathFolder), OptionGet("siteurl", r.config.pathFolder)]
    ensures r.config.dbName == Query(env.dbNames, r.config.pathFolder)
    ensures r.config.url == Query(env.siteUrls, r.config.pathFolder)
  {
    var path := FS.FindOutput(env.fs, HtdocsOf(user), ConfigFileName, SearchDepth);
    var folder := Php.Dirname(path);
    Located(
      Config(path, folder, Query(env.dbNames, folder), Query(env.siteUrls, folder)),
      [Find(HtdocsOf(user), SearchDepth, ConfigFileName), ConfigGet("DB_NAME", folder), OptionGet("siteurl", folder)])
  }

  // ---------------------------------------------------------------------
  // synchronize_files and its helpers

  /**
   * `string_to_bool`: a string `filter_var` accepts as a boolean becomes
   * that bool; any other string comes back unchanged, and is then truthy.
   */
  function StringToBool(value: string): (r: Php.Value)
    ensures Php.FilterBool(value).Some? ==> r == Php.Bool(Php.FilterBool(value).value)
    ensures Php.FilterBool(value).None? ==> r == Php.Str(value) && Php.Truthy(r)
  {
    Php.RefusedStringsAreTruthy(value);
    match Php.FilterBool(value)
    case Some(b) => Php.Bool(b)
    case None => Php.Str(value)
  }

  /** A content switch as `synchronize_files` reads it: absent means true. */
  function Switch(args: Args, key: string): Php.Value
  {
    if key in args then StringToBool(args[key]) else Php.Bool(true)
  }

  /** Position of an exclude option in the order the source appends them. */
  function ExcludeRank(option: string): nat
  {
    if option == ExcludePlugins then 0 else if option == ExcludeThemes then 1 else 2
  }

  /** The rsync option list `synchronize_files` builds; `RsyncOptionsShape` says what it holds. */
  function RsyncOptions(plugins: Php.Value, themes: Php.Value, uploads: Php.Value): seq<string>
  {
    BaseOptions
      + (if Php.Truthy(plugins) then [] else [ExcludePlugins])
      + (if Php.Truthy(themes) then [] else [ExcludeThemes])
      + (if Php.Truthy(uploads) then [] else [ExcludeUploads])
  }

  /**
   * The five fixed options come first, then the plugins, themes and uploads
   * excludes, each exactly when its switch is falsy, in that order; `--delete`
   * is never among them.
   */
  lemma RsyncOptionsShape(plugins: Php.Value, themes: Php.Value, uploads: Php.Value)
    ensures var r := RsyncOptions(plugins, themes, uploads);
      |r| >= |BaseOptions| && r[..|BaseOptions|] == BaseOptions
      && "--delete" !in r
      && (ExcludePlugins in r <==> !Php.Truthy(plugins))
      && (ExcludeThemes in r <==> !Php.Truthy(themes))
      && (ExcludeUploads in r <==> !Php.Truthy(uploads))
      && (forall i :: |BaseOptions| <= i < |r| ==> r[i] in {ExcludePlugins, ExcludeThemes, ExcludeUploads})
      && (forall i, j :: |BaseOptions| <= i < j < |r| ==> ExcludeRank(r[i]) < ExcludeRank(r[j]))
  {
  }

  /** The subtrees, relative to the source folder, whose files the progress total leaves out. */
  function SkippedSubtrees(plugins: Php.Value, themes: Php.Value, uploads: Php.Value): seq<string>
  {
    SkippedIf(plugins, "wp-content/plugins") + SkippedIf(themes, "wp-content/themes") + SkippedIf(uploads, "wp-content/uploads")
  }

  /** `[sub]` when the switch guarding it is falsy. */
  function SkippedIf(switch: Php.Value, sub: string): seq<string>
  {
    if Php.Truthy(switch) then [] else [sub]
  }

  /** `get_file_count` as a value: the files below `dir`, or None when iterating over it throws. */
  function FileCount(fs: FS.Node, dir: string): Option<nat>
  {
    if FS.Iteration(fs, dir).None? then None
    else Some(FS.RegularFiles(FS.Resolve(fs, dir).value))
  }

  /** The summed counts of the skipped subtrees, or the first one whose count throws. */
  function SkippedCount(fs: FS.Node, folder: string, subtrees: seq<string>): Result<nat, string>
  {
    if subtrees == [] then Success(0)
    else
      var dir := folder + "/" + subtrees[0];
      match FileCount(fs, dir)
      case None => Failure(dir)
      case Some(n) =>
        (match SkippedCount(fs, folder, subtrees[1..])
         case Failure(d) => Failure(d)
         case Success(m) => Success(n + m))
  }

  /** The progress-bar total: the folder's count less the skipped subtrees' counts. */
  function ProgressTotal(fs: FS.Node, folder: string, subtrees: seq<string>): Result<int, string>
  {
    match SkippedCount(fs, folder, subtrees)
    case Failure(d) => Failure(d)
    case Success(skipped) =>
      (match FileCount(fs, folder)
       case None => Failure(folder)
       case Some(n) => Success(n - skipped))
  }

  /** Number of newlines in `s`. */
  function NewlineCount(s: string): nat
  {
    if s == [] then 0 else NewlineCount(s[..|s| - 1]) + (if s[|s| - 1] == '\n' then 1 else 0)
  }

  datatype SyncOutcome = SyncOutcome(events: seq<Event>, failure: Option<Cause>)

  /** `synchronize_files` as a value; a count that throws ends it before rsync is started. */
  function Synchronize(env: Env, src: Config, dest: Config, args: Args): SyncOutcome
  {
    var plugins, themes, uploads := Switch(args, "plugins"), Switch(args, "themes"), Switch(args, "uploads");
    match ProgressTotal(env.fs, src.pathFolder, SkippedSubtrees(plugins, themes, uploads))
    case Failure(dir) => SyncOutcome([], Some(FileCountFailed(dir)))
    case Success(total) =>
      var rsync := Rsync(RsyncOptions(plugins, themes, uploads), src.pathFolder + "/", dest.pathFolder);
      if env.rsyncStarts then
        SyncOutcome([ProgressStart(total), rsync] + Ticks(NewlineCount(env.rsyncOutput) + 1), None)
      else
        SyncOutcome([ProgressStart(total)], Some(RsyncNotStarted))
  }

  // ---------------------------------------------------------------------
  // copy

  /** `WP_CLI::confirm`: a truthy `yes` argument answers for the operator. */
  predicate Confirmed(env: Env, args: Args)
  {
    ("yes" in args && Php.Truthy(Php.Str(args["yes"]))) || env.operatorConfirms
  }

  /** The checks before any discovery: both users given (by PHP's `empty`) and both home directories present. */
  predicate InputsValid(env: Env, args: Args)
  {
    var src, dest := ArgOr(args, "src", ""), ArgOr(args, "dest", "");
    !Php.IsEmpty(src) && !Php.IsEmpty(dest)
    && FS.FileExists(env.fs, "/home/" + src) && FS.FileExists(env.fs, "/home/" + dest)
  }

  /** Stage 2: ownership to dest:dest, then folder and file modes, all on the destination folder. */
  function Permissions(dest: string, folder: string, args: Args): seq<Event>
  {
    [ Chown(dest, dest, folder),
      ChmodDirs(folder, ArgOr(args, "folders", DefaultFolderMode)),
      ChmodFiles(folder, ArgOr(args, "files", DefaultFileMode)) ]
  }

  /** Stages 3 to 5: export the source database, clean and import into the destination, rewrite the URL. */
  function DatabaseStages(src: Config, dest: Config): seq<Event>
  {
    [ DbExport(TransferFile, src.pathFolder),
      DbClean(dest.pathFolder),
      DbImport(TransferFile, dest.pathFolder),
      SearchReplace(src.url, dest.url, dest.pathFolder) ]
  }

  /** The whole `copy` command as a value: its trace and how it ends. */
  function CopyRun(env: Env, args: Args): Run
  {
    var src, dest := ArgOr(args, "src", ""), ArgOr(args, "dest", "");
    if Php.IsEmpty(src) || Php.IsEmpty(dest) then Run([], Halted(MissingEnvironments))
    else if !FS.FileExists(env.fs, "/home/" + src) then Run([], Halted(NoSourceHome))
    else if !FS.FileExists(env.fs, "/home/" + dest) then Run([], Halted(NoDestinationHome))
    else
      var s, d := FindWordpress(env, src), FindWordpress(env, dest);
      var confirmed := s.events + d.events + [Confirm];
      if !Confirmed(env, args) then Run(confirmed, Declined)
      else
        var sync := Synchronize(env, s.config, d.config, args);
        if sync.failure.Some? then Run(confirmed + sync.events, Halted(sync.failure.value))
        else Run(confirmed + sync.events + Permissions(dest, d.config.pathFolder, args)
                 + DatabaseStages(s.config, d.config), Completed)
  }

  // ---------------------------------------------------------------------
  // The commands as the source runs them, step by step

  /** `get_file_count`: iterate over everything below `dir` and count the entries that are files. */
  method GetFileCount(fs: FS.Node, dir: string) returns (count: Option<nat>)
    ensures count == FileCount(fs, dir)
  {
    var files := FS.Iteration(fs, dir);
    if files.None? {
      return None;
    }
    var flags := files.value;
    var n := 0;
    for i := 0 to |flags|
      invariant n == FS.CountTrue(flags[..i])
    {
      assert flags[..i + 1][..i] == flags[..i];
      if flags[i] {
        n := n + 1;
      }
    }
    assert flags[..|flags|] == flags;
    FS.WalkCounts(FS.Resolve(fs, dir).value.entries);
    count := Some(n);
  }

  /** Index just past the line `fgets` returns from `pos`: after the next newline, or the end. */
  function LineEnd(out: string, pos: nat): (k: nat)
    requires pos < |out|
    ensures pos < k <= |out|
    ensures forall i :: pos <= i < k - 1 ==> out[i] != '\n'
    ensures k < |out| ==> out[k - 1] == '\n'
    decreases |out| - pos
  {
    if out[pos] == '\n' || pos + 1 == |out| then pos + 1 else LineEnd(out, pos + 1)
  }

  lemma {:induction false} NewlinesBefore(out: string, pos: nat, k: nat)
    requires pos <= k <= |out|
    requires forall i :: pos <= i < k ==> out[i] != '\n'
    ensures NewlineCount(out[..k]) == NewlineCount(out[..pos])
    decreases k - pos
  {
    if k > pos {
      assert out[..k][..k - 1] == out[..k - 1];
      NewlinesBefore(out, pos, k - 1);
    }
  }

  /**
   * `execute_rsync_with_progress`: start rsync, then `while (!feof) { fgets;
   * tick; }`. The end-of-file flag is set only by a read that meets the end
   * of the stream, so the read that finds nothing left ticks too: one tick
   * per `fgets` call, which is one more than the newlines rsync writes.
   */
  method ExecuteRsyncWithProgress(env: Env, command: Event) returns (events: seq<Event>, started: bool)
    requires command.Rsync?
    ensures started == env.rsyncStarts
    ensures started ==> events == [command] + Ticks(NewlineCount(env.rsyncOutput) + 1)
    ensures !started ==> events == []
  {
    if !env.rsyncStarts {
      return [], false;
    }
    started := true;
    var out := env.rsyncOutput;
    var pos, eof := 0, false;
    events := [command];
    while !eof
      invariant 0 <= pos <= |out|
      invariant eof ==> pos == |out|
      invariant events == [command] + Ticks(NewlineCount(out[..pos]) + (if eof then 1 else 0))
      decreases |out| - pos, !eof
    {
      if pos == |out| {
        eof := true;
      } else {
        var k := LineEnd(out, pos);
        NewlinesBefore(out, pos, k - 1);
        assert out[..k][..k - 1] == out[..k - 1];
        if out[k - 1] != '\n' {
          eof := true;
        }
        pos := k;
      }
      events := events + [Tick];
    }
    assert out[..pos] == out;
  }

  /** Lines 268-285 of `synchronize_files`: the fixed options, then one exclude per falsy switch. */
  method BuildRsyncOptions(plugins: Php.Value, themes: Php.Value, uploads: Php.Value) returns (options: seq<string>)
    ensures options == RsyncOptions(plugins, themes, uploads)
  {
    options := BaseOptions;
    if !Php.Truthy(plugins) {
      options := options + [ExcludePlugins];
    }
    if !Php.Truthy(themes) {
      options := options + [ExcludeThemes];
    }
    if !Php.Truthy(uploads) {
      options := options + [ExcludeUploads];
    }
  }

  /**
   * One `if` block of lines 293-307: when the switch is falsy, count the
   * files below `folder/sub` and subtract them from the running total, or
   * fail with that directory.
   */
  method SubtractSkipped(fs: FS.Node, folder: string, switch: Php.Value, sub: string, fileCount: int, ghost counted: seq<string>)
    returns (next: Result<int, string>)
    requires SkippedCount(fs, folder, counted).Success?
    requires fileCount + SkippedCount(fs, folder, counted).value == 0
    ensures match SkippedCount(fs, folder, counted + SkippedIf(switch, sub))
      case Failure(d) => next == Failure(d)
      case Success(x) => next.Success? && next.value + x == 0
  {
    if Php.Truthy(switch) {
      assert counted + SkippedIf(switch, sub) == counted;
      return Success(fileCount);
    }
    var dir := folder + "/" + sub;
    var c := GetFileCount(fs, dir);
    SkipStep(fs, folder, counted, sub, c);
    if c.None? {
      return Failure(dir);
    }
    next := Success(fileCount - c.value);
  }

  /**
   * Lines 291-308 of `synchronize_files`: start from 0, subtract the count of
   * each skipped subtree, then add the folder's own count; the first count
   * that throws ends it.
   */
  method TotalFiles(fs: FS.Node, folder: string, plugins: Php.Value, themes: Php.Value, uploads: Php.Value)
    returns (total: Result<int, string>)
    ensures total == ProgressTotal(fs, folder, SkippedSubtrees(plugins, themes, uploads))
  {
    ghost var subtrees := SkippedSubtrees(plugins, themes, uploads);
    ghost var counted: seq<string> := [];
    var next := SubtractSkipped(fs, folder, plugins, "wp-content/plugins", 0, counted);
    counted := counted + SkippedIf(plugins, "wp-content/plugins");
    if next.Failure? {
      SkippedCountPrefixFails(fs, folder, counted, subtrees);
      return Failure(next.error);
    }
    next := SubtractSkipped(fs, folder, themes, "wp-content/themes", next.value, counted);
    counted := counted + SkippedIf(themes, "wp-content/themes");
    if next.Failure? {
      SkippedCountPrefixFails(fs, folder, counted, subtrees);
      return Failure(next.error);
    }
    next := SubtractSkipped(fs, folder, uploads, "wp-content/uploads", next.value, counted);
    counted := counted + SkippedIf(uploads, "wp-content/uploads");
    assert counted == subtrees;
    if next.Failure? {
      return Failure(next.error);
    }
    var fileCount := next.value;
    var rootCount := GetFileCount(fs, folder);
    if rootCount.None? {
      return Failure(folder);
    }
    total := Success(fileCount + rootCount.value);
  }

  /** `synchronize_files`: read the switches, build the options, total the files, run rsync. */
  method SynchronizeFiles(env: Env, src: Config, dest: Config, args: Args) returns (events: seq<Event>, failure: Option<Cause>)
    ensures SyncOutcome(events, failure) == Synchronize(env, src, dest, args)
  {
    var plugins := Switch(args, "plugins");
    var themes := Switch(args, "themes");
    var uploads := Switch(args, "uploads");

    var options := BuildRsyncOptions(plugins, themes, uploads);
    var rsync := Rsync(options, src.pathFolder + "/", dest.pathFolder);

    var total := TotalFiles(env.fs, src.pathFolder, plugins, themes, uploads);
    if total.Failure? {
      return [], Some(FileCountFailed(total.error));
    }
    events := [ProgressStart(total.value)];
    var rsyncEvents, started := ExecuteRsyncWithProgress(env, rsync);
    if !started {
      return events, Some(RsyncNotStarted);
    }
    events := events + rsyncEvents;
    failure := None;
  }

  lemma {:induction false} SkippedCountAppend(fs: FS.Node, folder: string, a: seq<string>, b: seq<string>)
    ensures SkippedCount(fs, folder, a + b) ==
      match SkippedCount(fs, folder, a)
      case Failure(d) => Failure(d)
      case Success(x) =>
        (match SkippedCount(fs, folder, b)
         case Failure(d) => Failure(d)
         case Success(y) => Success(x + y))
    decreases |a|
  {
    if a == [] {
      assert a + b == b;
    } else {
      assert (a + b)[0] == a[0] && (a + b)[1..] == a[1..] + b;
      SkippedCountAppend(fs, folder, a[1..], b);
    }
  }

  /** Counting one more skipped subtree, as each `if` block of `synchronize_files` does. */
  lemma SkipStep(fs: FS.Node, folder: string, counted: seq<string>, sub: string, c: Option<nat>)
    requires c == FileCount(fs, folder + "/" + sub)
    ensures SkippedCount(fs, folder, counted + [sub]) ==
      match SkippedCount(fs, folder, counted)
      case Failure(d) => Failure(d)
      case Success(x) => (match c case None => Failure(folder + "/" + sub) case Some(n) => Success(x + n))
  {
    SkippedCountAppend(fs, folder, counted, [sub]);
    assert [sub][1..] == [];
  }

  lemma SkippedCountPrefixFails(fs: FS.Node, folder: string, a: seq<string>, whole: seq<string>)
    requires a <= whole && SkippedCount(fs, folder, a).Failure?
    ensures SkippedCount(fs, folder, whole) == SkippedCount(fs, folder, a)
  {
    assert whole == a + whole[|a|..];
    SkippedCountAppend(fs, folder, a, whole[|a|..]);
  }

  /** `copy`: validate, discover both sides, confirm, then run every stage in order. */
  method Copy(env: Env, args: Args) returns (trace: seq<Event>, end: End)
    ensures Run(trace, end) == CopyRun(env, args)
  {
    var src := if "src" in args then args["src"] else "";
    var dest := if "dest" in args then args["dest"] else "";
    var files := if "files" in args then args["files"] else DefaultFileMode;
    var folders := if "folders" in args then args["folders"] else DefaultFolderMode;

    if Php.IsEmpty(src) || Php.IsEmpty(dest) {
      return [], Halted(MissingEnvironments);
    }
    if !FS.FileExists(env.fs, "/home/" + src) {
      return [], Halted(NoSourceHome);
    }
    if !FS.FileExists(env.fs, "/home/" + dest) {
      return [], Halted(NoDestinationHome);
    }

    var srcFound := FindWordpress(env, src);
    var destFound := FindWordpress(env, dest);
    trace := srcFound.events + destFound.events;
    var srcConfig, destConfig := srcFound.config, destFound.config;

    trace := trace + [Confirm];
    if !Confirmed(env, args) {
      return trace, Declined;
    }

    var syncEvents, failure := SynchronizeFiles(env, srcConfig, destConfig, args);
    trace := trace + syncEvents;
    if failure.Some? {
      return trace, Halted(failure.value);
    }

    // Stage 2: ownership and permissions of the destination folder.
    trace := trace + [ Chown(dest, dest, destConfig.pathFolder),
                       ChmodDirs(destConfig.pathFolder, folders),
                       ChmodFiles(destConfig.pathFolder, files) ];
    // Stages 3 to 5: the database.
    trace := trace + [ DbExport(TransferFile, srcConfig.pathFolder),
                       DbClean(destConfig.pathFolder),
                       DbImport(TransferFile, destConfig.pathFolder),
                       SearchReplace(srcConfig.url, destConfig.url, destConfig.pathFolder) ];
    end := Completed;
  }
}
