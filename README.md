# clp-utils `copy`, modelled in Dafny

`wp clp copy --src=<user> --dest=<user>` copies a WordPress site on a
CloudPanel server from one user's installation to another's. It:

1. checks that both users were given and have a home directory;
2. finds each `wp-config.php` below `/home/<user>/htdocs` and asks WP-CLI for
   the database name and site URL;
3. asks the operator to confirm;
4. copies the files with rsync, driving a progress bar;
5. sets owner and permissions on the destination;
6. exports the source database, then cleans and imports the destination's
   and rewrites its URL.

This project models the planning logic of that command: which external
steps run, with which arguments, in what order, and where a run stops.

A run is a trace of `Clp.Event` values together with how it ended:
`Completed`, `Declined`, or `Halted` with the cause `WP_CLI::error` reports.
Everything the outside world answers comes from a `Clp.Env` value:
- the filesystem, as a tree of `FileSystem.Node`;
- what `wp config get DB_NAME` and `wp option get siteurl` print for each
  `--path`;
- the operator's answer;
- whether rsync can be started;
- what rsync writes.

Modules:

- `Wrappers`: `Option` and `Result`.
- `Text`: splitting on a separator (path components, shell words),
  `implode`.
- `Php`: the PHP built-ins the command relies on:
  - `empty()` and truthiness on strings;
  - `filter_var(..., FILTER_VALIDATE_BOOLEAN)`;
  - `dirname`;
  - `escapeshellarg`.
- `FileSystem`:
  - the file tree and path resolution;
  - what `RecursiveIteratorIterator` visits;
  - `find -maxdepth N -name X -print -quit`;
  - cutting subtrees out of a tree, for the count proofs.
- `Clp`:
  - the command as specification functions: `CopyRun`, `Synchronize`,
    `ProgressTotal`, `FindWordpress`, `RsyncOptions`;
  - the source's imperative parts as methods proved equal to those
    functions: `Copy`, `SynchronizeFiles`, `BuildRsyncOptions`,
    `TotalFiles`, `GetFileCount`, `ExecuteRsyncWithProgress`.
- `ClpProperties`: what the command promises, proved about the
  specification functions.

Where this model and the command's own description differ, the model
follows the code:
- The `catch (Exception $e)` blocks of stages 2 to 5 name a class that does
  not exist in the `SiteService` namespace, and the calls they guard do not
  throw. So those stages always proceed, and none of them reports a failure
  of its own.
- The `catch (\Exception $e)` around `synchronize_files` does work. A
  directory that cannot be counted ends the run with "Failed to synchronize
  files" before rsync starts.
- `find_wordpress` does not check for an empty `find` result. The folder is
  then `dirname("")`, which is "".
- The progress loop ticks once per `fgets` call. That includes the last
  read, which meets the end of the stream, so there is one tick more than
  rsync prints lines.
- A falsy `--yes` does not skip the prompt; a truthy one does. `copy` declares no `--yes` option, and WP-CLI may refuse it before the command runs; the model still accepts it (see "## Left out").

## Model

| member | source | states |
|---|---|---|
| Clp.Copy | src/clp.php:41-247 | The trace and ending of `copy` step by step equal `CopyRun`: halts at each failed check, the two discoveries, the prompt, synchronisation, then ownership, both modes and the four database stages |
| ClpProperties.ErrorsReportedApart | src/clp.php:70-121 | Causes from different `WP_CLI::error` calls (lines 71, 75, 79, 120 and 392) print different messages; the failed counts share the "Failed to synchronize files: " prefix |
| ClpProperties.ValidationFirst | src/clp.php:70-80 | Nothing runs (empty trace) exactly when the users are missing or a home directory is absent; such a run halts; it halts with the missing-environments error exactly when `empty()` holds for either user |
| ClpProperties.MissingHomeReported | src/clp.php:74-80 | With both users given, the source home is checked first and the destination second, each with its own error |
| ClpProperties.ConfirmationFirst | src/clp.php:112-242 | Every rsync, chown, chmod, export, clean, import and search-replace in any trace has the confirmation before it |
| ClpProperties.ChangesNeedConsent | src/clp.php:112-117 | A changing step appears only when the inputs are valid and the run is confirmed (by the operator or a truthy `--yes`); the run ends declined exactly when valid inputs are not confirmed |
| ClpProperties.StageOrder | src/clp.php:115-242 | In every trace the steps come in stage order: discovery and prompt, transfer, chown, folder modes, file modes, export, clean, import, search-replace |
| ClpProperties.CompletedStages | src/clp.php:125-242 | A completed run ends with chown dest:dest on the destination folder, folder mode `--folders` or 770, file mode `--files` or 660, export of the source to db.sql, clean and import of db.sql on the destination, search-replace from the source URL to the destination URL on the destination |
| ClpProperties.ChangesOnlyDestination | src/clp.php:129-238 | Every changing step writes to the destination folder, except the export, which writes db.sql |
| ClpProperties.CompletedExactly | src/clp.php:112-121 | A run completes exactly when the inputs are valid, it is confirmed, every file count succeeds and rsync starts |
| ClpProperties.WpCliArguments | src/clp.php:158-231 | Every WP-CLI step passes `--path=<its folder>` and ends with `--allow-root`; `--yes` exactly for `db clean`, `--all-tables` exactly for search-replace |
| ClpProperties.TransferShape | src/clp.php:268-289 | Every rsync in a trace copies `<source folder>/` into the destination folder, starts with the five fixed options, never has `--delete`, and has each exclude exactly when its switch is falsy |
| ClpProperties.RsyncCommandWords | src/clp.php:287-289 | For plain words, the rsync command line splits into `rsync`, the options in order, the source and the destination |
| Clp.SynchronizeFiles | src/clp.php:258-322 | Step by step `synchronize_files` equals `Synchronize`: switches read, options built, counts totalled (stopping at a count that throws), progress started, then rsync and its ticks, or the rsync error |
| ClpProperties.SynchronizeSteps | src/clp.php:312-316 | All steps of `synchronize_files` belong to the transfer, and the only changing step among them is the one rsync run with the built options |
| Clp.BuildRsyncOptions | src/clp.php:268-285 | The appended list equals `RsyncOptions` of the three switches |
| Clp.RsyncOptionsShape | src/clp.php:268-285 | The five fixed options come first and `--delete` is absent; each exclude is present exactly when its switch is falsy; excludes appear in plugins, themes, uploads order |
| Clp.TotalFiles | src/clp.php:291-308 | Subtracting each skipped subtree's count and adding the folder's own equals `ProgressTotal`, including the failure at the first count that throws |
| Clp.SubtractSkipped | src/clp.php:293-306 | One `if` block: when its switch is falsy, the running total drops by that subtree's count, or the block fails with that directory |
| ClpProperties.ProgressTotalCountsKeptFiles | src/clp.php:291-308 | A computed total is the folder's file count minus each skipped subtree's count; that equals the files left once those subtrees are cut away; it lies between 0 and the folder's count and equals it when nothing is skipped |
| ClpProperties.SkippedCountIsSubtreeFiles | src/clp.php:293-306 | The skipped counts, when they succeed, add up to the regular files of the skipped subtrees, each of which exists below the folder |
| ClpProperties.SkippedPathsDiverge | src/clp.php:295-305 | The plugins, themes and uploads subtrees never contain one another, so no file is subtracted twice |
| ClpProperties.ProgressTotalFailure | src/clp.php:293-308 | A failed total names a directory whose count throws: the folder or one of the skipped subtrees below it |
| FileSystem.PruneAllCount | src/clp.php:293-308 | For subtrees that pairwise diverge, the files left after cutting them plus the files inside them are all the files of the tree |
| Clp.StringToBool | src/clp.php:332-337 | A string `filter_var` accepts becomes its bool; any other string is returned unchanged and is truthy |
| ClpProperties.AbsentSwitchIsOn | src/clp.php:261-263 | An absent plugins, themes or uploads switch is true |
| ClpProperties.SwitchOffExactly | src/clp.php:261-285 | A switch is falsy, and so excludes its content, exactly when it is given and `filter_var` reads it as false |
| ClpProperties.EmptySwitchIsOff | src/clp.php:261-263 | A switch given as "" or "0" is falsy |
| Php.EmptyStringsAreBooleans | src/clp.php:334-335 | `filter_var` reads "" and "0" as false |
| Php.RefusedStringsAreTruthy | src/clp.php:334-336 | A string `filter_var` refuses is truthy |
| Clp.GetFileCount | src/clp.php:347-357 | The loop's count equals `FileCount`: none when iterating the directory throws, otherwise the regular files below it |
| FileSystem.WalkCounts | src/clp.php:350-355 | Counting what the iterator visits counts exactly the regular files of the tree, skipping "." and ".." and special files |
| Clp.ExecuteRsyncWithProgress | src/clp.php:363-394 | When rsync starts, the steps are the rsync run and one tick per `fgets` call (the newlines rsync prints plus one); otherwise nothing runs and the rsync error follows |
| ClpProperties.TicksPerLine | src/clp.php:375-382 | Output of n whole lines holds n newlines, so the bar ticks once per line and once for the read that meets the end |
| Clp.FindWordpress | src/clp.php:410-448 | The path is what `find` prints, the folder is its `dirname`, both queries are scoped to `--path=<folder>` and their answers fill the record; there is no not-found error |
| ClpProperties.DepthWrittenInDecimal | src/clp.php:415 | The `-maxdepth` argument is written in decimal digits that read back as the depth |
| ClpProperties.FindWordpressLocates | src/clp.php:410-448 | When `find` reports a file: path = folder + "/wp-config.php\n"; the folder lies below /home/<user>/htdocs, fewer than three levels deep, and holds wp-config.php; the database name and URL are the answers for `--path=<folder>` |
| ClpProperties.FindWordpressMissing | src/clp.php:418-423 | When `find` reports nothing, the path and the folder are both "", and no error is raised |
| ClpProperties.NoTransferWithoutSource | src/clp.php:415-423 | A source whose `find` reports nothing never completes a run and no changing step is run, because counting the "" folder throws before rsync |
| FileSystem.FindOutputLocates | src/clp.php:415-418 | A non-empty `find` result is a folder, a slash, the name and a newline; the folder resolves, lies within the depth limit below the start, and holds the name |
| Php.DirnameShape | src/clp.php:423 | `dirname` is "" only for ""; otherwise it is "/", "." or a proper prefix of the path that stops before a slash |
| Php.DirnameOfChild | src/clp.php:423 | `dirname("dir/base")` is `dir` when `dir` does not end in a slash and `base` has none |
| Php.ShellReadsEscaped | src/clp.php:138-139 | The shell reads the word `escapeshellarg` writes back as the original argument, quotes included |

## Left out

- Console output is left out: the banner, colours, the table of the two configurations, log and success lines, and the progress bar's rendering. It is presentation only.
- Subprocesses are not run. `shell_exec`, `proc_open` with its pipes, `fgets`/`feof` and `WP_CLI::runcommand` are steps in the trace, and their results come from `Env`. What chown, chmod, rsync and the database commands do to the system is not modelled.
- Query answers are stored as WP-CLI returns them. Whatever trimming WP-CLI applies to `runcommand` output is WP-CLI's behaviour and is included in them.
- Shell word splitting of the unquoted user names and paths in the `find`, chown and rsync command lines is only stated for plain words (`RsyncCommandWords`, a split on spaces). Paths with spaces or shell characters are out of scope, and so is the shell's glob expansion of the `*` in the unquoted exclude options.
- The chown and `find` command lines are rendered as the source writes them (`ShellCommand`), without a lemma of their own beyond the decimal depth.
- Path resolution does not treat `.` and `..` specially: they are looked up as ordinary names.
- Symbolic links are leaves of the tree: a link to a regular file is a `File`, any other link (to a directory, or dangling) is `Special`. So `FileExists` holds for a dangling link at `/home/<user>`, where PHP's `file_exists` follows the link and is false. The kernel, `find` and `RecursiveDirectoryIterator` follow a link to a directory when it is the start point or an earlier component of a path; the model does not, with the two consequences on the next lines.
- A directory being counted that is itself a link to a directory (say `wp-content/uploads` linked to shared storage, with `--uploads=false`) is counted by PHP through the link. In the model its `Iteration` is None, so the run halts with `FileCountFailed` where the program goes on to rsync.
- A link earlier on a path (say `/home/<user>` linked elsewhere) is followed by `find /home/<user>/htdocs`. In the model `Resolve` stops at the `Special` leaf, so `find` reports nothing and the run halts at the count of the "" folder.
- Links met while walking below the start are not descended into, by either the program (the iterator's and `find`'s default) or the model.
- The progress total is the source's count, not the number of files rsync copies: files named wp-config.php, which `--exclude=wp-config.php` leaves out, are still counted.
- In PHP 8, `new RecursiveDirectoryIterator("")` raises a ValueError, which the `\Exception` handler does not catch. The model treats it like the other counts that throw: the run halts before rsync. The exact exit and message differ.
- The exception's own message text after "Failed to synchronize files: " is not modelled.
- WP-CLI's own handling of arguments is WP-CLI's behaviour and is not modelled, including a flag given without a value (such as a bare `--plugins`). Arguments are a map from names to strings, and `confirm` is taken to skip the prompt exactly when `--yes` is truthy. The model accepts any argument map, including ones WP-CLI refuses before `copy` runs, such as a `--yes` the `## OPTIONS` block does not declare. For those, the truthy-`--yes` branch of `Confirmed` never happens in the program. The properties stay true for the argument maps WP-CLI accepts, which are a subset.
- A declined prompt ends the process inside `WP_CLI::confirm`; the model shows only the ending `Declined`, not the exit status.
- The standard error pipe, a rsync that blocks on a full pipe, and any concurrency are out of scope.
- clp-utils.php only registers the command with WP-CLI and is not part of this model.
- The source does not report per-stage failures for stages 2 to 5, and the model reports none. Its final "All Done!" is printed whenever the run gets that far.
