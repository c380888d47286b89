/**
 * `run`: the command dispatch. An omitted command becomes `download` when
 * the directory holds only bootstrap files and `upload` otherwise; every
 * command except `init` needs the configuration file to exist.
 */
module Cli {
  import opened Exclusions

  /** What one invocation goes on to do. */
  datatype Action =
    | RunInit
    | MissingConfig
    | RunDownload(dryrun: bool)
    | RunUpload(dryrun: bool)
    | RunClean(dryrun: bool)
    | NoAction

  /** The command after the default direction has been chosen. */
  function EffectiveCommand(command: string, names: seq<string>): (r: string)
    ensures command != "" ==> r == command
    ensures command == "" ==> (r == "download" <==> OnlyBootstrapFiles(names))
    ensures command == "" ==> (r == "upload" <==> !OnlyBootstrapFiles(names))
  {
    if command != "" then command
    else if OnlyBootstrapFiles(names) then "download"
    else "upload"
  }

  /**
   * `run`: resolves the default direction from the directory listing, runs
   * `init` without further checks, stops with a message when the
   * configuration is missing, and otherwise starts the named command; an
   * unrecognised command does nothing.
   */
  method Run(command: string, dryrun: bool, names: seq<string>, confExists: bool) returns (a: Action)
    ensures var cmd := EffectiveCommand(command, names);
      && (cmd == "init" ==> a == RunInit)
      && (cmd != "init" && !confExists ==> a == MissingConfig)
      && (cmd != "init" && confExists ==>
            a == (if cmd == "download" then RunDownload(dryrun)
                  else if cmd == "upload" then RunUpload(dryrun)
                  else if cmd == "clean" then RunClean(dryrun)
                  else NoAction))
  {
    var cmd := command;
    if cmd == "" {
      var pristine := CheckNoLocalFiles(names);
      if pristine {
        cmd := "download";
      } else {
        cmd := "upload";
      }
    }
    if cmd == "init" {
      return RunInit;
    }
    if !confExists {
      return MissingConfig;
    }
    a := NoAction;
    if cmd == "download" {
      a := RunDownload(dryrun);
    }
    if cmd == "upload" {
      a := RunUpload(dryrun);
    }
    if cmd == "clean" {
      a := RunClean(dryrun);
    }
  }

  /**
   * Without a command, a project holding only its configuration and README
   * is downloaded; once it holds anything else, such as `src`, it is
   * uploaded.
   */
  lemma DefaultDirectionScenario()
    ensures EffectiveCommand("", ["s3-project-backup.json", "README.md"]) == "download"
    ensures EffectiveCommand("", ["s3-project-backup.json", "README.md", "src"]) == "upload"
  {
    BootstrapScenario();
  }

  /** The default direction is always one of the two sync directions, never init or clean. */
  lemma DefaultIsSync(names: seq<string>)
    ensures EffectiveCommand("", names) in {"download", "upload"}
  {
  }
}
