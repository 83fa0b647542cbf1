/**
 * What the `copy` command promises, proved about the model in module Clp:
 * validation before any discovery, confirmation before any change, the
 * stage order, the arguments every step receives, what the progress total
 * counts and where `find_wordpress` points.
 */
module ClpProperties {
  import opened Wrappers
  import opened Clp
  import Php
  import Text
  import FS = FileSystem

  // ---------------------------------------------------------------------
  // content switches

  /** An absent switch keeps its content in the copy. */
  lemma AbsentSwitchIsOn(args: Args, key: string)
    requires key !in args
    ensures Php.Truthy(Switch(args, key))
  {
  }

  /** A switch excludes its content exactly when it is given and `filter_var` reads it as false. */
  lemma SwitchOffExactly(args: Args, key: string)
    ensures !Php.Truthy(Switch(args, key)) <==> key in args && Php.FilterBool(args[key]) == Some(false)
  {
    if key in args {
      var r := StringToBool(args[key]);
    }
  }

  /** A switch given as "0" or as an empty string turns its content off. */
  lemma EmptySwitchIsOff(args: Args, key: string)
    requires key in args && Php.IsEmpty(args[key])
    ensures !Php.Truthy(Switch(args, key))
  {
    Php.EmptyStringsAreBooleans(args[key]);
    SwitchOffExactly(args, key);
  }

  // ---------------------------------------------------------------------
  // step rendering

  /**
   * Every WP-CLI step is scoped to its installation and run as root; only
   * `db clean` is told `--yes`, and only `search-replace` covers all tables.
   */
  lemma WpCliArguments(e: Event)
    requires e.IsWpCli()
    ensures var (_, flags) := WpCliCall(e);
      "--path=" + e.path in flags && |flags| >= 2 && flags[|flags| - 1] == "--allow-root"
      && ("--yes" in flags <==> e.DbClean?)
      && ("--all-tables" in flags <==> e.SearchReplace?)
  {
    var (_, flags) := WpCliCall(e);
    assert flags[|flags| - 2] == "--path=" + e.path;
    assert "--path=" + e.path != "--yes" && "--path=" + e.path != "--all-tables" by {
      assert ("--path=" + e.path)[2] == 'p';
    }
  }

  lemma PlainWordFirst(w: string, rest: string)
    requires Text.Plain(w, ' ')
    ensures Text.Split(w + " " + rest, ' ') == [w] + Text.Split(rest, ' ')
  {
    assert w + " " + rest == w + [' '] + rest;
    Text.SplitAround(w, rest, ' ');
    Text.SplitPlain(w, ' ');
  }

  /**
   * The rsync command line, split on spaces, gives back the program, its
   * options in order, the source and the destination.
   */
  lemma RsyncCommandWords(options: seq<string>, source: string, destination: string)
    requires forall i :: 0 <= i < |options| ==> Text.Plain(options[i], ' ')
    requires Text.Plain(source, ' ') && Text.Plain(destination, ' ')
    ensures Text.Split(ShellCommand(Rsync(options, source, destination)), ' ') == ["rsync"] + options + [source, destination]
  {
    var rest := Text.Join(options, ' ') + " " + (source + " " + destination);
    RsyncCommandLine(options, source, destination);
    PlainWordFirst("rsync", rest);
    ArgumentWords(options, source, destination);
    assert ["rsync"] + (options + [source, destination]) == ["rsync"] + options + [source, destination];
  }

  /** The joined options, then the source and destination, split back into those words. */
  lemma ArgumentWords(options: seq<string>, source: string, destination: string)
    requires forall i :: 0 <= i < |options| ==> Text.Plain(options[i], ' ')
    requires Text.Plain(source, ' ') && Text.Plain(destination, ' ')
    ensures Text.Split(Text.Join(options, ' ') + " " + (source + " " + destination), ' ')
         == options + [source, destination]
  {
    var joined, tail := Text.Join(options, ' '), source + " " + destination;
    assert joined + " " + tail == joined + [' '] + tail;
    Text.SplitAround(joined, tail, ' ');
    Text.SplitJoin(options, ' ');
    PlainWordFirst(source, destination);
    Text.SplitPlain(destination, ' ');
    assert [source] + [destination] == [source, destination];
  }

  lemma RsyncCommandLine(options: seq<string>, source: string, destination: string)
    ensures ShellCommand(Rsync(options, source, destination))
         == "rsync" + " " + (Text.Join(options, ' ') + " " + (source + " " + destination))
  {
    assert "rsync " == "rsync" + " ";
    Regroup("rsync ", Text.Join(options, ' '), " ", source, " ", destination);
  }

  lemma Regroup<T>(a: seq<T>, b: seq<T>, c: seq<T>, d: seq<T>, e: seq<T>, f: seq<T>)
    ensures a + b + c + d + e + f == a + (b + c + (d + e + f))
  {
  }

  // ---------------------------------------------------------------------
  // progress ticks

  /** rsync output made of whole lines: each line followed by a newline. */
  function Lines(lines: seq<string>): string
  {
    if lines == [] then [] else Lines(lines[..|lines| - 1]) + lines[|lines| - 1] + "\n"
  }

  lemma {:induction false} NewlinesAbsent(s: string)
    requires '\n' !in s
    ensures NewlineCount(s) == 0
    decreases |s|
  {
    if s != [] {
      NewlinesAbsent(s[..|s| - 1]);
    }
  }

  lemma {:induction false} NewlineCountAppend(a: string, b: string)
    ensures NewlineCount(a + b) == NewlineCount(a) + NewlineCount(b)
    decreases |b|
  {
    if b == [] {
      assert a + b == a;
    } else {
      assert (a + b)[..|a + b| - 1] == a + b[..|b| - 1];
      NewlineCountAppend(a, b[..|b| - 1]);
    }
  }

  /** Whole lines of rsync output hold one newline each, so the bar ticks once per line and once more at the end. */
  lemma {:induction false} TicksPerLine(lines: seq<string>)
    requires forall i :: 0 <= i < |lines| ==> '\n' !in lines[i]
    ensures NewlineCount(Lines(lines)) == |lines|
    decreases |lines|
  {
    if lines != [] {
      var init, last := lines[..|lines| - 1], lines[|lines| - 1];
      assert Lines(lines) == Lines(init) + (last + "\n");
      TicksPerLine(init);
      NewlineCountAppend(Lines(init), last + "\n");
      NewlineCountAppend(last, "\n");
      NewlinesAbsent(last);
      assert NewlineCount("\n") == NewlineCount([]) + 1;
    }
  }

  // ---------------------------------------------------------------------
  // the run of `copy`

  /** The configurations `copy` discovers for its two users. */
  function SourceOf(env: Env, args: Args): Config
  {
    FindWordpress(env, ArgOr(args, "src", "")).config
  }

  function DestinationOf(env: Env, args: Args): Config
  {
    FindWordpress(env, ArgOr(args, "dest", "")).config
  }

  /** Nothing at all is run unless both users are named and both home directories exist; each check has its message. */
  lemma ValidationFirst(env: Env, args: Args)
    ensures CopyRun(env, args).trace == [] <==> !InputsValid(env, args)
    ensures !InputsValid(env, args) ==> CopyRun(env, args).end.Halted?
    ensures var src, dest := ArgOr(args, "src", ""), ArgOr(args, "dest", "");
      CopyRun(env, args).end == Halted(MissingEnvironments) <==> Php.IsEmpty(src) || Php.IsEmpty(dest)
  {
  }

  /** A missing home directory is reported for the side it belongs to, the source first. */
  lemma MissingHomeReported(env: Env, args: Args)
    requires "src" in args && "dest" in args
    requires !Php.IsEmpty(args["src"]) && !Php.IsEmpty(args["dest"])
    ensures CopyRun(env, args).end == Halted(NoSourceHome) <==> !FS.FileExists(env.fs, "/home/" + args["src"])
    ensures CopyRun(env, args).end == Halted(NoDestinationHome)
      <==> FS.FileExists(env.fs, "/home/" + args["src"]) && !FS.FileExists(env.fs, "/home/" + args["dest"])
  {
  }

  /**
   * Each way a run halts prints its own error; only the failed counts,
   * whose exception text is left out, share one.
   */
  lemma ErrorsReportedApart(c: Cause, d: Cause)
    ensures KindOf(c) != KindOf(d) ==> Message(c) != Message(d)
    ensures c.FileCountFailed? && d.FileCountFailed? ==> Message(c) == Message(d)
  {
    MessageLength(c);
    MessageLength(d);
  }

  /** The length of each message, which tells the causes apart. */
  lemma MessageLength(c: Cause)
    ensures |Message(c)| == [49, 34, 39, 29, 28][KindOf(c)]
  {
  }

  /** Which of the five `WP_CLI::error` calls a cause comes from. */
  function KindOf(c: Cause): (k: nat)
    ensures k < 5
  {
    match c
    case MissingEnvironments => 0
    case NoSourceHome => 1
    case NoDestinationHome => 2
    case FileCountFailed(_) => 3
    case RsyncNotStarted => 4
  }

  /** The stage each step belongs to, in the order `copy` runs them. */
  function Stage(e: Event): nat
  {
    match e
    case Find(_, _, _) => 0
    case ConfigGet(_, _) => 0
    case OptionGet(_, _) => 0
    case Confirm => 0
    case ProgressStart(_) => 1
    case Rsync(_, _, _) => 1
    case Tick => 1
    case Chown(_, _, _) => 2
    case ChmodDirs(_, _) => 3
    case ChmodFiles(_, _) => 4
    case DbExport(_, _) => 5
    case DbClean(_) => 6
    case DbImport(_, _) => 7
    case SearchReplace(_, _, _) => 8
  }

  /** The path each changing step writes to; an export writes db.sql, in the working directory. */
  function Target(e: Event): string
    requires e.IsMutating()
  {
    match e
    case Rsync(_, _, destination) => destination
    case Chown(_, _, path) => path
    case ChmodDirs(path, _) => path
    case ChmodFiles(path, _) => path
    case DbExport(file, _) => file
    case DbClean(path) => path
    case DbImport(_, path) => path
    case SearchReplace(_, _, path) => path
  }

  /** The part of a run up to the prompt: the discovery of both installations, then the confirmation. */
  function Asked(env: Env, args: Args): seq<Event>
  {
    if !InputsValid(env, args) then []
    else FindWordpress(env, ArgOr(args, "src", "")).events + FindWordpress(env, ArgOr(args, "dest", "")).events + [Confirm]
  }

  /** The part of a run that `synchronize_files` contributes. */
  function Transfer(env: Env, args: Args): seq<Event>
  {
    if !InputsValid(env, args) || !Confirmed(env, args) then []
    else Synchronize(env, SourceOf(env, args), DestinationOf(env, args), args).events
  }

  /** The stages after the transfer, run when it succeeds. */
  function Finish(env: Env, args: Args): seq<Event>
  {
    if !InputsValid(env, args) || !Confirmed(env, args)
       || Synchronize(env, SourceOf(env, args), DestinationOf(env, args), args).failure.Some?
    then []
    else Permissions(ArgOr(args, "dest", ""), DestinationOf(env, args).pathFolder, args)
         + DatabaseStages(SourceOf(env, args), DestinationOf(env, args))
  }

  lemma TraceParts(env: Env, args: Args)
    ensures CopyRun(env, args).trace == Asked(env, args) + Transfer(env, args) + Finish(env, args)
  {
    var asked, transfer, finish := Asked(env, args), Transfer(env, args), Finish(env, args);
    if !InputsValid(env, args) {
      assert CopyRun(env, args).trace == [] == asked + transfer + finish;
    } else {
      var confirmed := FindWordpress(env, ArgOr(args, "src", "")).events
                       + FindWordpress(env, ArgOr(args, "dest", "")).events + [Confirm];
      assert asked == confirmed;
      if !Confirmed(env, args) {
        assert CopyRun(env, args).trace == confirmed;
        assert transfer == [] && finish == [];
        assert asked + transfer + finish == asked;
      } else {
        var sync := Synchronize(env, SourceOf(env, args), DestinationOf(env, args), args);
        assert transfer == sync.events;
        if sync.failure.Some? {
          assert CopyRun(env, args).trace == confirmed + sync.events;
          assert finish == [];
          assert asked + transfer + finish == asked + sync.events;
        } else {
          assert CopyRun(env, args).trace == confirmed + sync.events + finish;
        }
      }
    }
  }

  lemma AskedSteps(env: Env, args: Args)
    ensures var t := Asked(env, args);
      (t == [] <==> !InputsValid(env, args))
      && (t != [] ==> t[|t| - 1] == Confirm)
      && forall i :: 0 <= i < |t| ==> Stage(t[i]) == 0 && !t[i].IsMutating()
  {
  }

  /** The steps of `synchronize_files` all belong to the transfer stage, and the only change among them is the rsync run. */
  lemma SynchronizeSteps(env: Env, src: Config, dest: Config, args: Args)
    ensures var t := Synchronize(env, src, dest, args).events;
      (forall i :: 0 <= i < |t| ==> Stage(t[i]) == 1)
      && (forall i :: 0 <= i < |t| && t[i].IsMutating() ==>
            t[i] == Rsync(RsyncOptions(Switch(args, "plugins"), Switch(args, "themes"), Switch(args, "uploads")),
                          src.pathFolder + "/", dest.pathFolder))
  {
  }

  lemma TransferSteps(env: Env, args: Args)
    ensures var t := Transfer(env, args);
      (t != [] ==> InputsValid(env, args) && Confirmed(env, args))
      && (forall i :: 0 <= i < |t| ==> Stage(t[i]) == 1)
      && (forall i :: 0 <= i < |t| && t[i].IsMutating() ==> t[i] == TransferOf(env, args))
  {
    SynchronizeSteps(env, SourceOf(env, args), DestinationOf(env, args), args);
  }

  /** The stages after the transfer, in order, each changing the destination (the export writes db.sql). */
  lemma LaterSteps(user: string, src: Config, dest: Config, args: Args)
    ensures var t := Permissions(user, dest.pathFolder, args) + DatabaseStages(src, dest);
      (forall i :: 0 <= i < |t| ==> Stage(t[i]) == i + 2 && t[i].IsMutating() && !t[i].Rsync?)
      && (forall i :: 0 <= i < |t| ==>
            Target(t[i]) == (if t[i].DbExport? then TransferFile else dest.pathFolder))
  {
  }

  lemma FinishSteps(env: Env, args: Args)
    ensures var t := Finish(env, args);
      (t != [] ==> InputsValid(env, args) && Confirmed(env, args))
      && (forall i :: 0 <= i < |t| ==> Stage(t[i]) == i + 2 && t[i].IsMutating() && !t[i].Rsync?)
      && (forall i :: 0 <= i < |t| ==>
            Target(t[i]) == (if t[i].DbExport? then TransferFile else DestinationOf(env, args).pathFolder))
  {
    LaterSteps(ArgOr(args, "dest", ""), SourceOf(env, args), DestinationOf(env, args), args);
  }

  /** Every step that changes something comes after the confirmation. */
  lemma ConfirmationFirst(env: Env, args: Args)
    ensures var t := CopyRun(env, args).trace;
      forall i :: 0 <= i < |t| && t[i].IsMutating() ==> Confirm in t[..i]
  {
    TraceParts(env, args);
    AskedSteps(env, args);
    TransferSteps(env, args);
    FinishSteps(env, args);
    ConfirmedPrefix(Asked(env, args), Transfer(env, args), Finish(env, args));
  }

  lemma ConfirmedPrefix(asked: seq<Event>, transfer: seq<Event>, finish: seq<Event>)
    requires forall i :: 0 <= i < |asked| ==> !asked[i].IsMutating()
    requires asked != [] ==> asked[|asked| - 1] == Confirm
    requires asked == [] ==> transfer == [] && finish == []
    ensures var t := asked + transfer + finish;
      forall i :: 0 <= i < |t| && t[i].IsMutating() ==> Confirm in t[..i]
  {
    var t := asked + transfer + finish;
    forall i | 0 <= i < |asked| ensures t[i] == asked[i] {
    }
    forall i | |asked| <= i < |t| ensures Confirm in t[..i] {
      assert t[..i][|asked| - 1] == Confirm;
    }
  }

  /** Only a run the operator (or `--yes`) approved, on valid inputs, changes anything. */
  lemma ChangesNeedConsent(env: Env, args: Args)
    ensures var t := CopyRun(env, args).trace;
      forall i :: 0 <= i < |t| && t[i].IsMutating() ==> InputsValid(env, args) && Confirmed(env, args)
    ensures CopyRun(env, args).end == Declined <==> InputsValid(env, args) && !Confirmed(env, args)
  {
    TraceParts(env, args);
    AskedSteps(env, args);
    TransferSteps(env, args);
    FinishSteps(env, args);
    ChangesAfterAsking(Asked(env, args), Transfer(env, args), Finish(env, args), InputsValid(env, args) && Confirmed(env, args));
  }

  lemma ChangesAfterAsking(asked: seq<Event>, transfer: seq<Event>, finish: seq<Event>, consent: bool)
    requires forall i :: 0 <= i < |asked| ==> !asked[i].IsMutating()
    requires transfer != [] || finish != [] ==> consent
    ensures var t := asked + transfer + finish;
      forall i :: 0 <= i < |t| && t[i].IsMutating() ==> consent
  {
    var t := asked + transfer + finish;
    forall i | 0 <= i < |asked| ensures t[i] == asked[i] {
    }
  }

  predicate InStageOrder(t: seq<Event>)
  {
    forall i, j :: 0 <= i < j < |t| ==> Stage(t[i]) <= Stage(t[j])
  }

  lemma OrderedJoin(a: seq<Event>, b: seq<Event>, m: nat)
    requires InStageOrder(a) && InStageOrder(b)
    requires forall i :: 0 <= i < |a| ==> Stage(a[i]) <= m
    requires forall j :: 0 <= j < |b| ==> m <= Stage(b[j])
    ensures InStageOrder(a + b)
  {
    forall i, j | 0 <= i < j < |a + b| ensures Stage((a + b)[i]) <= Stage((a + b)[j]) {
      if j < |a| {
        assert (a + b)[i] == a[i] && (a + b)[j] == a[j];
      } else if i < |a| {
        assert (a + b)[i] == a[i] && (a + b)[j] == b[j - |a|];
      } else {
        assert (a + b)[i] == b[i - |a|] && (a + b)[j] == b[j - |a|];
      }
    }
  }

  /**
   * Discovery and the prompt, then the file transfer, then ownership, folder
   * modes, file modes, export, clean, import and search-replace: the steps
   * of every run, however it ends, come in this order.
   */
  lemma StageOrder(env: Env, args: Args)
    ensures InStageOrder(CopyRun(env, args).trace)
  {
    TraceParts(env, args);
    AskedSteps(env, args);
    TransferSteps(env, args);
    FinishSteps(env, args);
    PartsInOrder(Asked(env, args), Transfer(env, args), Finish(env, args));
  }

  lemma PartsInOrder(asked: seq<Event>, transfer: seq<Event>, finish: seq<Event>)
    requires forall i :: 0 <= i < |asked| ==> Stage(asked[i]) == 0
    requires forall i :: 0 <= i < |transfer| ==> Stage(transfer[i]) == 1
    requires forall i :: 0 <= i < |finish| ==> Stage(finish[i]) == i + 2
    ensures InStageOrder(asked + transfer + finish)
  {
    SameStage(asked, 0);
    SameStage(transfer, 1);
    RisingStages(finish);
    OrderedJoin(asked, transfer, 0);
    forall i | 0 <= i < |asked + transfer| ensures Stage((asked + transfer)[i]) <= 1 {
      if i < |asked| {
        assert (asked + transfer)[i] == asked[i];
      } else {
        assert (asked + transfer)[i] == transfer[i - |asked|];
      }
    }
    OrderedJoin(asked + transfer, finish, 1);
  }

  lemma SameStage(t: seq<Event>, m: nat)
    requires forall i :: 0 <= i < |t| ==> Stage(t[i]) == m
    ensures InStageOrder(t)
  {
  }

  lemma RisingStages(t: seq<Event>)
    requires forall i :: 0 <= i < |t| ==> Stage(t[i]) == i + 2
    ensures InStageOrder(t)
  {
  }

  /**
   * A completed run ends with the seven stages after the transfer: the
   * destination folder owned by the destination user, folders and files
   * given the requested modes (770 and 660 by default), the source
   * database exported to db.sql, the destination's cleaned, db.sql
   * imported into it and the source URL replaced by the destination's.
   */
  lemma CompletedStages(env: Env, args: Args)
    requires CopyRun(env, args).end == Completed
    ensures var t, dest := CopyRun(env, args).trace, ArgOr(args, "dest", "");
      var s, d := SourceOf(env, args), DestinationOf(env, args);
      |t| >= 7 && t[|t| - 7..] ==
        [ Chown(dest, dest, d.pathFolder),
          ChmodDirs(d.pathFolder, if "folders" in args then args["folders"] else DefaultFolderMode),
          ChmodFiles(d.pathFolder, if "files" in args then args["files"] else DefaultFileMode),
          DbExport(TransferFile, s.pathFolder),
          DbClean(d.pathFolder),
          DbImport(TransferFile, d.pathFolder),
          SearchReplace(s.url, d.url, d.pathFolder) ]
  {
    TraceParts(env, args);
    var finish := Finish(env, args);
    LaterStages(ArgOr(args, "dest", ""), SourceOf(env, args), DestinationOf(env, args), args);
    EndsWith(Asked(env, args) + Transfer(env, args), finish);
  }

  lemma LaterStages(user: string, src: Config, dest: Config, args: Args)
    ensures Permissions(user, dest.pathFolder, args) + DatabaseStages(src, dest) ==
        [ Chown(user, user, dest.pathFolder),
          ChmodDirs(dest.pathFolder, if "folders" in args then args["folders"] else DefaultFolderMode),
          ChmodFiles(dest.pathFolder, if "files" in args then args["files"] else DefaultFileMode),
          DbExport(TransferFile, src.pathFolder),
          DbClean(dest.pathFolder),
          DbImport(TransferFile, dest.pathFolder),
          SearchReplace(src.url, dest.url, dest.pathFolder) ]
  {
  }

  lemma EndsWith<T>(a: seq<T>, b: seq<T>)
    ensures (a + b)[|a|..] == b
  {
  }

  lemma TargetsIn(t: seq<Event>, asked: seq<Event>, transfer: seq<Event>, finish: seq<Event>, rsync: Event, folder: string)
    requires t == asked + transfer + finish
    requires rsync.Rsync? && rsync.destination == folder
    requires forall i :: 0 <= i < |asked| ==> !asked[i].IsMutating()
    requires forall i :: 0 <= i < |transfer| && transfer[i].IsMutating() ==> transfer[i] == rsync
    requires forall i :: 0 <= i < |finish| ==>
      finish[i].IsMutating() && !finish[i].Rsync? && Target(finish[i]) == (if finish[i].DbExport? then TransferFile else folder)
    ensures forall i :: 0 <= i < |t| && t[i].Rsync? ==> t[i] == rsync
    ensures forall i :: 0 <= i < |t| && t[i].IsMutating() ==>
      Target(t[i]) == (if t[i].DbExport? then TransferFile else folder)
  {
    forall i | 0 <= i < |asked| ensures t[i] == asked[i] {
    }
    forall i | |asked| <= i < |asked| + |transfer| ensures t[i] == transfer[i - |asked|] {
    }
    forall i | |asked| + |transfer| <= i < |t| ensures t[i] == finish[i - |asked| - |transfer|] {
    }
  }

  /** Apart from the export file, every change lands on the destination installation. */
  lemma ChangesOnlyDestination(env: Env, args: Args)
    ensures var t := CopyRun(env, args).trace;
      forall i :: 0 <= i < |t| && t[i].IsMutating() ==>
        Target(t[i]) == (if t[i].DbExport? then TransferFile else DestinationOf(env, args).pathFolder)
  {
    TransferSteps(env, args);
    TracedTargets(env, args);
  }

  lemma TracedTargets(env: Env, args: Args)
    ensures var t, rsync := CopyRun(env, args).trace, TransferOf(env, args);
      (forall i :: 0 <= i < |t| && t[i].Rsync? ==> t[i] == rsync)
      && forall i :: 0 <= i < |t| && t[i].IsMutating() ==>
        Target(t[i]) == (if t[i].DbExport? then TransferFile else DestinationOf(env, args).pathFolder)
  {
    TraceParts(env, args);
    AskedSteps(env, args);
    TransferSteps(env, args);
    FinishSteps(env, args);
    TargetsIn(CopyRun(env, args).trace, Asked(env, args), Transfer(env, args), Finish(env, args),
              TransferOf(env, args), DestinationOf(env, args).pathFolder);
  }

  /** The rsync step `copy` would run for these arguments. */
  function TransferOf(env: Env, args: Args): Event
  {
    Rsync(RsyncOptions(Switch(args, "plugins"), Switch(args, "themes"), Switch(args, "uploads")),
          SourceOf(env, args).pathFolder + "/", DestinationOf(env, args).pathFolder)
  }

  /**
   * The one transfer copies the contents of the source folder into the
   * destination folder with the five fixed options, an exclude for each
   * switched-off content directory, and never `--delete`.
   */
  lemma TransferShape(env: Env, args: Args)
    ensures var t := CopyRun(env, args).trace;
      var plugins, themes, uploads := Switch(args, "plugins"), Switch(args, "themes"), Switch(args, "uploads");
      forall i :: 0 <= i < |t| && t[i].Rsync? ==>
        t[i].source == SourceOf(env, args).pathFolder + "/"
        && t[i].destination == DestinationOf(env, args).pathFolder
        && BaseOptions <= t[i].options
        && "--delete" !in t[i].options
        && (ExcludePlugins in t[i].options <==> !Php.Truthy(plugins))
        && (ExcludeThemes in t[i].options <==> !Php.Truthy(themes))
        && (ExcludeUploads in t[i].options <==> !Php.Truthy(uploads))
  {
    RsyncOptionsShape(Switch(args, "plugins"), Switch(args, "themes"), Switch(args, "uploads"));
    TracedTargets(env, args);
  }

  /** A run completes exactly when the inputs are valid, it is confirmed, every count succeeds and rsync starts. */
  lemma CompletedExactly(env: Env, args: Args)
    ensures var s := SourceOf(env, args);
      var skipped := SkippedSubtrees(Switch(args, "plugins"), Switch(args, "themes"), Switch(args, "uploads"));
      CopyRun(env, args).end == Completed
      <==> InputsValid(env, args) && Confirmed(env, args)
           && ProgressTotal(env.fs, s.pathFolder, skipped).Success? && env.rsyncStarts
  {
  }

  // ---------------------------------------------------------------------
  // the progress total

  /** A path below `folder` resolves through `folder`. */
  lemma ComponentsBelow(folder: string, sub: string)
    ensures FS.Components(folder + "/" + sub) == FS.Components(folder) + FS.Components(sub)
  {
    assert folder + "/" + sub == folder + ['/'] + sub;
    Text.SplitAround(folder, sub, '/');
  }

  /** The resolved path of each skipped subtree. */
  function SkippedPaths(subtrees: seq<string>): seq<seq<string>>
  {
    seq(|subtrees|, k requires 0 <= k < |subtrees| => FS.Components(subtrees[k]))
  }

  /** What `get_file_count` reports on a directory below `folder` is the file count of that subtree. */
  lemma CountBelow(fs: FS.Node, folder: string, root: FS.Node, sub: string)
    requires FS.Resolve(fs, folder) == Some(root)
    requires FileCount(fs, folder + "/" + sub).Some?
    ensures FS.Lookup(root, FS.Components(sub)).Some?
    ensures FileCount(fs, folder + "/" + sub).value == FS.RegularFiles(FS.Lookup(root, FS.Components(sub)).value)
  {
    ComponentsBelow(folder, sub);
    FS.LookupAppend(fs, FS.Components(folder), FS.Components(sub));
  }

  /** The skipped count is the number of files in the skipped subtrees, each of which exists. */
  lemma {:induction false} SkippedCountIsSubtreeFiles(fs: FS.Node, folder: string, root: FS.Node, subtrees: seq<string>)
    requires FS.Resolve(fs, folder) == Some(root)
    requires SkippedCount(fs, folder, subtrees).Success?
    ensures forall k :: 0 <= k < |subtrees| ==> FS.Lookup(root, SkippedPaths(subtrees)[k]).Some?
    ensures SkippedCount(fs, folder, subtrees).value == FS.SubtreeFiles(root, SkippedPaths(subtrees))
    decreases |subtrees|
  {
    if subtrees != [] {
      var paths := SkippedPaths(subtrees);
      assert SkippedPaths(subtrees[1..]) == paths[1..];
      CountBelow(fs, folder, root, subtrees[0]);
      SkippedCountIsSubtreeFiles(fs, folder, root, subtrees[1..]);
      forall k | 0 <= k < |subtrees| ensures FS.Lookup(root, paths[k]).Some? {
        if k > 0 {
          assert paths[k] == paths[1..][k - 1];
        }
      }
    }
  }

  lemma TwoComponents(a: string, b: string)
    requires Text.Plain(a, '/') && Text.Plain(b, '/')
    ensures FS.Components(a + "/" + b) == [a, b]
  {
    assert a + "/" + b == a + ['/'] + b;
    Text.SplitAround(a, b, '/');
    Text.SplitPlain(a, '/');
    Text.SplitPlain(b, '/');
  }

  lemma SkippedPathsAppend(a: seq<string>, b: seq<string>)
    ensures SkippedPaths(a + b) == SkippedPaths(a) + SkippedPaths(b)
  {
  }

  /** Up to three paths, each present or not, of which every two diverge. */
  lemma ChosenDiverge(x: bool, y: bool, z: bool, p: seq<string>, q: seq<string>, r: seq<string>)
    requires FS.Diverge(p, q) && FS.Diverge(p, r) && FS.Diverge(q, r)
    ensures FS.PairwiseDiverge((if x then [] else [p]) + (if y then [] else [q]) + (if z then [] else [r]))
  {
  }

  /** Two paths with the same first component and different second ones diverge. */
  lemma SiblingsDiverge(parent: string, a: string, b: string)
    requires a != b
    ensures FS.Diverge([parent, a], [parent, b])
  {
    assert [parent, a][1..] == [a] && [parent, b][1..] == [b];
  }

  /** Chosen children of one parent, with different names, lie side by side. */
  lemma ChildPathsDiverge(x: bool, y: bool, z: bool, parent: string, a: string, b: string, c: string)
    requires Text.Plain(parent, '/') && Text.Plain(a, '/') && Text.Plain(b, '/') && Text.Plain(c, '/')
    requires a != b && a != c && b != c
    ensures FS.PairwiseDiverge(SkippedPaths(
      (if x then [] else [parent + "/" + a]) + (if y then [] else [parent + "/" + b]) + (if z then [] else [parent + "/" + c])))
  {
    var p, q, r := (if x then [] else [parent + "/" + a]), (if y then [] else [parent + "/" + b]), (if z then [] else [parent + "/" + c]);
    SkippedPathsAppend(p + q, r);
    SkippedPathsAppend(p, q);
    TwoComponents(parent, a);
    TwoComponents(parent, b);
    TwoComponents(parent, c);
    SiblingsDiverge(parent, a, b);
    SiblingsDiverge(parent, a, c);
    SiblingsDiverge(parent, b, c);
    assert SkippedPaths(p) == (if x then [] else [[parent, a]]);
    assert SkippedPaths(q) == (if y then [] else [[parent, b]]);
    assert SkippedPaths(r) == (if z then [] else [[parent, c]]);
    ChosenDiverge(x, y, z, [parent, a], [parent, b], [parent, c]);
  }

  /** The skipped subtrees lie side by side: none is inside another. */
  lemma SkippedPathsDiverge(plugins: Php.Value, themes: Php.Value, uploads: Php.Value)
    ensures FS.PairwiseDiverge(SkippedPaths(SkippedSubtrees(plugins, themes, uploads)))
  {
    assert "wp-content/plugins" == "wp-content" + "/" + "plugins";
    assert "wp-content/themes" == "wp-content" + "/" + "themes";
    assert "wp-content/uploads" == "wp-content" + "/" + "uploads";
    ChildPathsDiverge(Php.Truthy(plugins), Php.Truthy(themes), Php.Truthy(uploads), "wp-content", "plugins", "themes", "uploads");
  }

  /**
   * A total that is computed is the number of regular files left below the
   * source folder once the skipped subtrees are cut away. It is never
   * negative, never above the folder's own count, and is that whole count
   * when nothing is skipped.
   */
  lemma ProgressTotalCountsKeptFiles(fs: FS.Node, folder: string, plugins: Php.Value, themes: Php.Value, uploads: Php.Value)
    requires ProgressTotal(fs, folder, SkippedSubtrees(plugins, themes, uploads)).Success?
    ensures FS.Resolve(fs, folder).Some?
    ensures var paths := SkippedPaths(SkippedSubtrees(plugins, themes, uploads));
      forall k :: 0 <= k < |paths| ==> FS.Lookup(FS.Resolve(fs, folder).value, paths[k]).Some?
    ensures var root, total := FS.Resolve(fs, folder).value, ProgressTotal(fs, folder, SkippedSubtrees(plugins, themes, uploads)).value;
      var paths := SkippedPaths(SkippedSubtrees(plugins, themes, uploads));
      total == FS.RegularFiles(root) - FS.SubtreeFiles(root, paths)
      && total == FS.RegularFiles(FS.PruneAll(root, paths))
      && 0 <= total <= FS.RegularFiles(root)
      && (Php.Truthy(plugins) && Php.Truthy(themes) && Php.Truthy(uploads) ==> total == FS.RegularFiles(root))
  {
    var subtrees := SkippedSubtrees(plugins, themes, uploads);
    var root := FS.Resolve(fs, folder).value;
    SkippedCountIsSubtreeFiles(fs, folder, root, subtrees);
    SkippedPathsDiverge(plugins, themes, uploads);
    FS.PruneAllCount(root, SkippedPaths(subtrees));
  }

  /** A failed total names a directory whose count throws: the folder itself or one of the skipped subtrees below it. */
  lemma {:induction false} SkippedCountFailure(fs: FS.Node, folder: string, subtrees: seq<string>) returns (k: nat)
    requires SkippedCount(fs, folder, subtrees).Failure?
    ensures k < |subtrees| && SkippedCount(fs, folder, subtrees).error == folder + "/" + subtrees[k]
    ensures FileCount(fs, folder + "/" + subtrees[k]).None?
    decreases |subtrees|
  {
    if FileCount(fs, folder + "/" + subtrees[0]).None? {
      return 0;
    }
    var j := SkippedCountFailure(fs, folder, subtrees[1..]);
    k := j + 1;
  }

  lemma ProgressTotalFailure(fs: FS.Node, folder: string, subtrees: seq<string>)
    requires ProgressTotal(fs, folder, subtrees).Failure?
    ensures var d := ProgressTotal(fs, folder, subtrees).error;
      FileCount(fs, d).None? && (d == folder || exists k :: 0 <= k < |subtrees| && d == folder + "/" + subtrees[k])
  {
    if SkippedCount(fs, folder, subtrees).Failure? {
      var k := SkippedCountFailure(fs, folder, subtrees);
    }
  }

  // ---------------------------------------------------------------------
  // find_wordpress

  /** The `-maxdepth` argument is written in decimal digits that read back as the depth. */
  lemma {:induction false} DepthWrittenInDecimal(n: nat)
    ensures var s := NatToString(n);
      s != [] && DecimalValue(s) == n && forall i :: 0 <= i < |s| ==> '0' <= s[i] <= '9'
  {
    var s := NatToString(n);
    var d := (48 + n % 10) as char;
    if n < 10 {
      assert s == [d];
      assert s[..0] == [];
    } else {
      DepthWrittenInDecimal(n / 10);
      var t := NatToString(n / 10);
      assert s == t + [d];
      assert s[..|s| - 1] == t;
    }
  }

  /**
   * When `find` reports a wp-config.php, the record points at it: the path
   * is the folder, a slash, the file name and the newline `find` prints;
   * the folder lies at most two levels below /home/<user>/htdocs and
   * holds that file; the database name and site URL are the answers for
   * that folder.
   */
  lemma FindWordpressLocates(env: Env, user: string)
    requires FS.WellFormed(env.fs)
    requires FS.FindOutput(env.fs, HtdocsOf(user), ConfigFileName, SearchDepth) != ""
    ensures var c := FindWordpress(env, user).config;
      c.path == c.pathFolder + "/" + ConfigFileName + "\n"
      && FS.Components(HtdocsOf(user)) <= FS.Components(c.pathFolder)
      && |FS.Components(c.pathFolder)| < |FS.Components(HtdocsOf(user))| + SearchDepth
      && FS.Resolve(env.fs, c.pathFolder).Some? && FS.Holds(FS.Resolve(env.fs, c.pathFolder).value, ConfigFileName)
      && c.dbName == Query(env.dbNames, c.pathFolder) && c.url == Query(env.siteUrls, c.pathFolder)
  {
    var start := HtdocsOf(user);
    assert start[|start| - 1] == 's';
    FS.FindOutputLocates(env.fs, start, ConfigFileName, SearchDepth);
  }

  /** When `find` reports nothing, the path and the folder are both empty. */
  lemma FindWordpressMissing(env: Env, user: string)
    requires FS.FindOutput(env.fs, HtdocsOf(user), ConfigFileName, SearchDepth) == ""
    ensures FindWordpress(env, user).config.path == "" && FindWordpress(env, user).config.pathFolder == ""
  {
  }

  /**
   * A source user without a WordPress installation that `find` can see
   * never gets as far as rsync: counting the files of the empty folder
   * throws, so the run stops before the transfer and nothing is copied.
   */
  lemma NoTransferWithoutSource(env: Env, args: Args)
    requires FS.FindOutput(env.fs, HtdocsOf(ArgOr(args, "src", "")), ConfigFileName, SearchDepth) == ""
    ensures var t := CopyRun(env, args).trace;
      CopyRun(env, args).end != Completed && forall i :: 0 <= i < |t| ==> !t[i].IsMutating()
  {
    var src := SourceOf(env, args);
    assert src.pathFolder == "";
    var skipped := SkippedSubtrees(Switch(args, "plugins"), Switch(args, "themes"), Switch(args, "uploads"));
    assert FileCount(env.fs, "") == None;
    assert ProgressTotal(env.fs, src.pathFolder, skipped).Failure?;
    assert Synchronize(env, src, DestinationOf(env, args), args).events == [];
    TraceParts(env, args);
    AskedSteps(env, args);
    assert Transfer(env, args) == [] && Finish(env, args) == [];
    var asked := Asked(env, args);
    assert CopyRun(env, args).trace == asked + [] + [];
    assert asked + [] + [] == asked;
  }
}
