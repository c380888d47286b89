# s3-project-backup, modelled in Dafny

`s3-project-backup` keeps a local project directory in step with an S3
location by running `aws s3 sync`. This project models the decisions the
script makes before it hands control to the aws command line. The file
system, the terminal and the child process become inputs and outputs:

- **Configuration** (`conf.dfy`, module `Conf`). `load_conf` replaces the
  `"DIRNAME"` prefix placeholder with the base name of the current directory.
  `build_s3_path` forms `s3://bucket/prefix/`. Parsing that location back
  recovers the bucket and the prefix. The README line written by `init` is
  the same location without its trailing slash.
- **Fixed lists** (`exclusions.dfy`, module `Exclusions`). These are
  `EXCLUDE_ITEMS`, `DUPLICATED_ITEMS` and the `.gitignore` template.
  `CLEAN_IGNORE` is computed from them the way the script's comprehension
  does it. `check_no_local_files` is the loop with an early return that
  decides whether the directory holds only bootstrap files.
- **Sync commands** (`sync_command.dfy`, module `SyncCommand`). These are the
  argument vectors of `upload` and `download`. They are stated both
  element by element and as the aws command line reads them: the operands in
  order, plus the values of `--profile=`, `--storage-class=` and `--exclude=`.
  This module also states where `--delete` and `--dryrun` appear.
- **Init wizard** (`init_wizard.dfy`, module `InitWizard`). `init` refuses to
  run when a configuration already exists. Otherwise it fills each empty
  field from a supplied prompt answer. An empty prefix answer falls back to
  the directory name, and an empty storage-class answer to `STANDARD`.
  `init` also reports the `.gitignore` and README contents it writes.
- **Clean** (`cleaning.dfy`, module `Cleaning`). The working directory is a
  `WorkingDir` object that holds a map from entry names to entry kinds.
  `Clean` walks the listing and deletes each entry that is not skipped.
  Only files, directories and symbolic links are deleted. In a dry run it
  deletes nothing and only reports the names.
- **Dispatch** (`cli.dfy`, module `Cli`). `run` turns an omitted command into
  `download` or `upload`. It sends `init` straight to the wizard and stops
  when the configuration is missing. It maps `download`, `upload` and `clean`
  to their actions, and does nothing for any other word.

`wrappers.dfy` holds `Option` and `Result`. `text.dfy` models the string
operations the script uses (`split`, `startswith` and `strip`), with `Join`
as the inverse of `split`.

Behaviour of the code worth knowing, which the model follows:

- `build_s3_path` appends `/` without looking at the prefix, so an empty
  prefix or one ending in `/` gives a location ending in `//`.
  `Conf.SingleTrailingSlash` states exactly when the location ends in a
  single slash.
- The prefix prompt offers only the directory name as its default;
  `datetime` is imported but unused.
- Without a global template the wizard starts from four empty strings. It
  asks for every field, and uses `STANDARD` only when the storage-class
  answer is empty.
- The `CLEAN_IGNORE` comprehension keeps every non-empty line after the
  first two (`p or p.startswith("!")`), not only the `!` lines. For the
  shipped template the two readings agree.
  `Exclusions.AllowListAsWrittenAgrees` gives the condition under which they
  agree, and `Exclusions.CleanIgnoreValue` gives the resulting list.
- `clean` deletes only what `is_file`, `is_dir` or `is_symlink` recognise. A
  FIFO, socket or device node is reported but left in place.
- The README line uses the prefix as `init` stored it. If the global template
  holds `"DIRNAME"`, the placeholder is written as it is, and the line has no
  trailing slash.

## Model

| member | source | states |
|---|---|---|
| Conf.ResolvePrefix | s3-project-backup.py:57-59 | a `"DIRNAME"` prefix becomes the directory name; any other prefix and every other field is unchanged |
| Conf.ResolvePrefixIdempotent | s3-project-backup.py:57-59 | resolving twice against the same directory gives the same configuration as resolving once |
| Conf.ResolvePrefixRemovesSentinel | s3-project-backup.py:57-59 | unless the directory is itself named `DIRNAME`, no placeholder is left after loading |
| Conf.LoadConf | s3-project-backup.py:50-61 | a missing configuration file is an error; otherwise the result is the parsed record with its placeholder prefix resolved |
| Conf.BuildS3Path | s3-project-backup.py:72-73 | the location starts with `s3://`, ends with `/` and is 7 characters longer than bucket and prefix together |
| Conf.ParseBuildS3Path | s3-project-backup.py:72-73 | reading the location back gives the configured bucket and prefix, for any bucket name without `/` |
| Conf.SingleTrailingSlash | s3-project-backup.py:72-73 | the location ends in a single `/` exactly when the prefix is non-empty and does not end in `/` |
| Conf.ReadmeLine | s3-project-backup.py:171-173 | the README line is `# ` plus the remote location without its trailing `/`, plus a newline |
| Text.Split | s3-project-backup.py:34 | splitting gives at least one piece and no piece contains the separator |
| Text.JoinSplit | s3-project-backup.py:34 | joining the pieces of a split with the separator gives the text back |
| Text.SplitJoin | s3-project-backup.py:34 | splitting lines that contain no separator after joining them gives the lines back |
| Text.TrimStart | s3-project-backup.py:34 | the result is a suffix of the input, starting with a non-space character, and everything dropped is whitespace |
| Text.TrimEnd | s3-project-backup.py:34 | the result is a prefix of the input, ending with a non-space character, and everything dropped is whitespace |
| Text.Strip | s3-project-backup.py:34 | the result is no longer than the input and has no whitespace at either end |
| Text.StripKeepsMiddle | s3-project-backup.py:34 | the stripped string is the input with all leading and trailing whitespace removed; the middle is kept |
| Exclusions.AllowListAsWritten | s3-project-backup.py:34-35 | at most one name per line; blank lines give nothing, and lines that are all non-empty give one name each |
| Exclusions.CleanIgnoreFrom | s3-project-backup.py:33-35 | the list computed from a template starts with `EXCLUDE_ITEMS` |
| Exclusions.SplitGitIgnore | s3-project-backup.py:26-31 | splitting the template at line breaks gives its six lines, the first and last empty |
| Exclusions.AllowListAsWrittenAgrees | s3-project-backup.py:33-35 | where every line is empty or starts with `!`, the comprehension as written keeps exactly the `!` lines, without the `!` |
| Exclusions.CleanIgnoreValue | s3-project-backup.py:16-35 | `CLEAN_IGNORE` is `EXCLUDE_ITEMS` followed by `.gitignore`, `README.md`, `s3-project-backup.json` |
| Exclusions.CheckNoLocalFiles | s3-project-backup.py:76-80 | true iff every listed name is in `EXCLUDE_ITEMS` or `DUPLICATED_ITEMS`; when false, some listed name is in neither |
| Exclusions.EmptyIsBootstrapOnly | s3-project-backup.py:76-80 | an empty directory counts as holding only bootstrap files |
| Exclusions.OnlyBootstrapFilesAppend | s3-project-backup.py:76-80 | one more entry keeps the verdict true only if that entry is bookkeeping as well |
| Exclusions.BootstrapScenario | s3-project-backup.py:76-80 | configuration and README alone are bootstrap-only; adding `src` makes the directory not bootstrap-only |
| SyncCommand.UploadArgv | s3-project-backup.py:93-105 | the upload vector has 8 + 6 arguments, plus one more on a dry run, with `.` at position 4 and the remote location at position 5 |
| SyncCommand.DownloadArgv | s3-project-backup.py:116-127 | the download vector has 7 + 6 arguments, plus one more on a dry run, with the remote location at position 4 and `.` at position 5 |
| SyncCommand.DownloadMirrorsUpload | s3-project-backup.py:93-127 | the download vector is the upload vector with its two operands swapped and the storage-class argument removed |
| SyncCommand.ExcludeArgs | s3-project-backup.py:102 | one argument per item; the aws command line reads the `--exclude=` values back as exactly the items, in order, and none of the arguments is an operand |
| SyncCommand.WithDryRun | s3-project-backup.py:104-105 | the command is kept as a prefix and gains one argument only on a dry run; its operands are unchanged; for a command not already ending in `--dryrun`, the result ends in `--dryrun` iff a dry run was asked for |
| SyncCommand.UploadOperands | s3-project-backup.py:93-102 | the upload operands are `aws s3 sync`, then `.`, then the remote location |
| SyncCommand.UploadProfile | s3-project-backup.py:93-102 | the upload vector carries `--profile=` once, with the configured profile |
| SyncCommand.UploadStorageClass | s3-project-backup.py:93-102 | the upload vector carries `--storage-class=` once, with the configured storage class |
| SyncCommand.UploadExcludes | s3-project-backup.py:93-102 | the upload vector excludes exactly `EXCLUDE_ITEMS`, in order |
| SyncCommand.UploadReadsAs | s3-project-backup.py:93-105 | the four facts above, for upload, in one statement |
| SyncCommand.DownloadOperands | s3-project-backup.py:116-124 | the download operands are `aws s3 sync`, then the remote location, then `.` |
| SyncCommand.DownloadProfile | s3-project-backup.py:116-124 | the download vector carries `--profile=` once, with the configured profile |
| SyncCommand.DownloadHeadNoOtherOption | s3-project-backup.py:116-124 | the fixed download arguments carry no value for any option name that is not a prefix of the profile argument or of `--delete` |
| SyncCommand.DownloadStorageClass | s3-project-backup.py:116-124 | the download vector carries no `--storage-class=` argument |
| SyncCommand.DownloadExcludes | s3-project-backup.py:116-124 | the download vector excludes exactly `EXCLUDE_ITEMS`, in order |
| SyncCommand.DownloadReadsAs | s3-project-backup.py:116-127 | the four facts above, for download, in one statement |
| SyncCommand.SyncFlags | s3-project-backup.py:101-105 | both vectors contain `--delete`; each contains `--dryrun` iff a dry run was asked for, as its last argument, and no argument before the last is `--dryrun` |
| SyncCommand.Upload | s3-project-backup.py:87-107 | fails when the configuration is missing; otherwise gives the upload vector for the loaded configuration |
| SyncCommand.Download | s3-project-backup.py:110-129 | fails when the configuration is missing; otherwise gives the download vector for the loaded configuration |
| InitWizard.FilledConfig | s3-project-backup.py:137-163 | each field filled in the template is kept; each other field is the answer, the prefix falling back to the directory name and the storage class to `STANDARD` when the answer is empty |
| InitWizard.FillField | s3-project-backup.py:146-163 | a filled field is kept; an empty one takes the answer, or the fallback when the answer is empty |
| InitWizard.Init | s3-project-backup.py:132-173 | refuses iff the configuration exists; otherwise writes the filled configuration and the `.gitignore` template, and writes the README line only when no README exists |
| InitWizard.CompleteTemplateKept | s3-project-backup.py:137-163 | a template with all four fields filled is written unchanged, whatever the answers |
| InitWizard.AnsweredWithoutTemplate | s3-project-backup.py:137-163 | with no template and non-empty answers, the configuration holds exactly the four answers |
| InitWizard.FilledFieldsNonEmpty | s3-project-backup.py:152-163 | the storage class is never empty; the prefix is non-empty whenever the directory name is; profile and bucket are non-empty when answered |
| Cleaning.WorkingDir.constructor | s3-project-backup.py:179 | the directory object starts with the given entries |
| Cleaning.Reported | s3-project-backup.py:179-182 | at most one printed name per listed entry |
| Cleaning.CleanStep | s3-project-backup.py:180-190 | handling one name leaves every other entry and every kind as it was, and removes that entry exactly when it is present, not skipped and a file, directory or symbolic link |
| Cleaning.Walk | s3-project-backup.py:179-190 | walking the listing only removes entries and never changes the kind of one that stays |
| Cleaning.AfterClean | s3-project-backup.py:178-190 | cleaning only removes entries and never changes the kind of one that stays |
| Cleaning.WalkKeeps | s3-project-backup.py:179-190 | after a live run an entry remains iff it was present and is unlisted, skipped or of a kind no branch deletes |
| Cleaning.WalkRemovesDoomed | s3-project-backup.py:179-190 | a live run's result is the directory minus exactly the doomed entries, whatever the listing order |
| Cleaning.RemoveEntry | s3-project-backup.py:185-190 | the three deletion branches together remove the named entry if it is a file, directory or symbolic link, and change nothing else |
| Cleaning.Clean | s3-project-backup.py:178-190 | the directory afterwards is the walk's result (unchanged on a dry run), and the printed names are the non-skipped names in listing order |
| Cleaning.ReportedExactly | s3-project-backup.py:179-182 | a name is printed iff it is listed and not skipped |
| Cleaning.CleanKeepsIgnored | s3-project-backup.py:180-181 | no skipped entry is deleted or changed, in either mode |
| Cleaning.DryRunKeepsAll | s3-project-backup.py:183-184 | a dry run leaves the directory exactly as it was |
| Cleaning.LiveCleanLeavesOnlyKept | s3-project-backup.py:179-190 | after a live run over the whole listing, an entry remains iff it is skipped or is none of file, directory and symbolic link |
| Cleaning.DeletedAreReported | s3-project-backup.py:182-190 | every entry a live run deletes is among the printed names |
| Cleaning.CleanKeepsBootstrap | s3-project-backup.py:33-35 | with `CLEAN_IGNORE` as the skip list, the configuration file, `.gitignore` and README always survive |
| Cli.EffectiveCommand | s3-project-backup.py:208-214 | a given command is kept; an omitted one becomes `download` iff the directory is bootstrap-only, and `upload` iff it is not |
| Cli.Run | s3-project-backup.py:193-230 | `init` runs the wizard; any other command stops when the configuration is missing; otherwise the command selects download, upload, clean or nothing |
| Cli.DefaultDirectionScenario | s3-project-backup.py:210-214 | with no command, configuration and README alone select `download`; with `src` added, the command is `upload` |
| Cli.DefaultIsSync | s3-project-backup.py:210-214 | an omitted command always resolves to `download` or `upload` |

## Left out

- Running the aws command (`run_command`, with its `shlex.join` echo) is out of scope. The model stops at the argument vector.
- Console messages are not modelled. These are the `print` calls in `upload`, `download`, `init` and `run`, and the name printing in `clean`, which the model returns as a sequence instead.
- Reading and writing JSON is not modelled. The parsed project configuration is an input with four string fields. A project file with a missing key or a `null` value, which Python would reject or print as `None`, is not modelled. The global template is an `Option<Template>` whose fields are `None` when missing or `null`.
- File existence checks, `resolve().name`, `glob` and `iterdir` are inputs. These are whether the configuration or README exists, the directory name, the listing in the order the file system yields it, and each entry's kind.
- Prompt answers are an input record. An answer is used only when its field is empty.
- Deletion removes a name from the directory map. Failing deletions are not modelled, including a non-zero exit of `rm -rf`, which the script ignores.
- Argument parsing and process exit are not modelled. `Cli.Run` returns the action chosen, and `MissingConfig` and `AlreadyExists` stand for the exits with status 1.
- The `.gitignore` and README writes are represented by the contents returned in `InitOutcome`.
- Text.Strip: removes only ASCII whitespace. Python's `str.strip` also removes Unicode spaces, but the template's lines contain neither kind.
- Cleaning.Clean: takes the skip list as a parameter. The script always uses `CLEAN_IGNORE`, and `Cleaning.CleanKeepsBootstrap` states what that choice guarantees.
- Strings are sequences of characters. No encoding or normalisation is modelled.
