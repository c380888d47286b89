/**
 * The argument vectors `upload` and `download` hand to `aws s3 sync`, and
 * what the aws command line reads out of them: the operands in order and the
 * value of each `--name=value` option.
 */
module SyncCommand {
  import opened Wrappers
  import opened Text
  import opened Conf
  import opened Exclusions

  /**
   * `[f"--exclude={e}" for e in items]`: one argument per item, which the
   * aws command line reads back as exactly the items, in order, and none
   * of which is an operand.
   */
  function ExcludeArgs(items: seq<string>): (r: seq<string>)
    ensures |r| == |items|
    ensures FlagValues(r, "--exclude=") == items
    ensures Positionals(r) == []
  {
    var r := seq(|items|, k requires 0 <= k < |items| => "--exclude=" + items[k]);
    ExcludeArgsReadBack(items, r);
    r
  }

  /** Arguments `--exclude=` + item, one per item, read back as the items and give no operand. */
  lemma {:induction false} ExcludeArgsReadBack(items: seq<string>, args: seq<string>)
    requires |args| == |items|
    requires forall k :: 0 <= k < |args| ==> args[k] == "--exclude=" + items[k]
    ensures FlagValues(args, "--exclude=") == items
    ensures Positionals(args) == []
  {
    if items != [] {
      assert args[0][..10] == "--exclude=" && args[0][10..] == items[0];
      ExcludeArgsReadBack(items[1..], args[1..]);
    }
  }

  /**
   * `cmd.append("--dryrun")` when a dry run was asked for: the command is
   * kept as its prefix, gains no operand, and ends in `--dryrun` exactly on
   * a dry run (provided it did not already end in one).
   */
  function WithDryRun(cmd: seq<string>, dryrun: bool): (r: seq<string>)
    ensures |r| == |cmd| + (if dryrun then 1 else 0) && r[..|cmd|] == cmd
    ensures Positionals(r) == Positionals(cmd)
    ensures (cmd == [] || cmd[|cmd| - 1] != "--dryrun") ==> (dryrun <==> r != [] && r[|r| - 1] == "--dryrun")
  {
    if dryrun then
      PositionalsConcat(cmd, ["--dryrun"]);
      assert Positionals(["--dryrun"]) == [];
      cmd + ["--dryrun"]
    else cmd
  }

  /** The command `upload` runs: local directory first, remote location second. */
  function UploadArgv(conf: Config, dryrun: bool): (r: seq<string>)
    ensures |r| == 8 + |ExcludeItems| + (if dryrun then 1 else 0)
    ensures r[4] == "." && r[5] == BuildS3Path(conf)
  {
    WithDryRun(UploadHead(conf) + ExcludeArgs(ExcludeItems), dryrun)
  }

  /** The command `download` runs: remote location first, no storage class. */
  function DownloadArgv(conf: Config, dryrun: bool): (r: seq<string>)
    ensures |r| == 7 + |ExcludeItems| + (if dryrun then 1 else 0)
    ensures r[4] == BuildS3Path(conf) && r[5] == "."
  {
    WithDryRun(DownloadHead(conf) + ExcludeArgs(ExcludeItems), dryrun)
  }

  /**
   * `download` builds the `upload` vector with its two operands swapped and
   * the storage-class option removed; everything else is shared.
   */
  lemma DownloadMirrorsUpload(conf: Config, dryrun: bool)
    ensures var up := UploadArgv(conf, dryrun);
      DownloadArgv(conf, dryrun) == up[..4] + [up[5], up[4]] + up[7..]
  {
    var e := ExcludeArgs(ExcludeItems);
    WithDryRunAfter(UploadHead(conf), e, dryrun);
    WithDryRunAfter(DownloadHead(conf), e, dryrun);
    HeadsMirror(conf, WithDryRun(e, dryrun));
  }

  /** The dry-run flag goes after everything, so it can be added to the tail alone. */
  lemma WithDryRunAfter(head: seq<string>, tail: seq<string>, dryrun: bool)
    ensures WithDryRun(head + tail, dryrun) == head + WithDryRun(tail, dryrun)
  {
  }

  /** The two fixed heads differ by the swapped operands and the storage class, whatever follows. */
  lemma HeadsMirror(conf: Config, tail: seq<string>)
    ensures var up := UploadHead(conf) + tail;
      DownloadHead(conf) + tail == up[..4] + [up[5], up[4]] + up[7..]
  {
    var up := UploadHead(conf) + tail;
    assert up[7..] == ["--delete"] + tail;
  }

  /** The values the aws command line reads for option `key` (written `key` + value). */
  function FlagValues(argv: seq<string>, key: string): (r: seq<string>)
    ensures |r| <= |argv|
  {
    if argv == [] then []
    else FlagValue(argv[0], key) + FlagValues(argv[1..], key)
  }

  /** The arguments that are not options, in order. */
  function Positionals(argv: seq<string>): (r: seq<string>)
    ensures |r| <= |argv|
  {
    if argv == [] then []
    else Positional(argv[0]) + Positionals(argv[1..])
  }

  lemma {:induction false} FlagValuesConcat(a: seq<string>, b: seq<string>, key: string)
    ensures FlagValues(a + b, key) == FlagValues(a, key) + FlagValues(b, key)
  {
    if a != [] {
      assert (a + b)[1..] == a[1..] + b;
      FlagValuesConcat(a[1..], b, key);
    } else {
      assert a + b == b;
    }
  }

  lemma {:induction false} PositionalsConcat(a: seq<string>, b: seq<string>)
    ensures Positionals(a + b) == Positionals(a) + Positionals(b)
  {
    if a != [] {
      assert (a + b)[1..] == a[1..] + b;
      PositionalsConcat(a[1..], b);
    } else {
      assert a + b == b;
    }
  }

  /** No exclusion argument carries any other option, nor is any of them `--dryrun`. */
  lemma {:induction false} ExcludeArgsOnlyExclude(items: seq<string>, key: string)
    requires |key| >= 3 && key[2] != 'e'
    ensures FlagValues(ExcludeArgs(items), key) == []
    ensures "--dryrun" !in ExcludeArgs(items)
  {
    if items != [] {
      var args := ExcludeArgs(items);
      assert args[1..] == ExcludeArgs(items[1..]);
      assert args[0] == "--exclude=" + items[0];
      assert args[0][2] == 'e';
      assert !StartsWith(args[0], key);
      ExcludeArgsOnlyExclude(items[1..], key);
      assert args == [args[0]] + args[1..];
    }
  }

  /** What one argument contributes to `FlagValues`. */
  function FlagValue(arg: string, key: string): seq<string>
  {
    if StartsWith(arg, key) then [arg[|key|..]] else []
  }

  /** What one argument contributes to `Positionals`. */
  function Positional(arg: string): seq<string>
  {
    if IsOption(arg) then [] else [arg]
  }

  /** An argument starting with `-` is an option, not an operand. */
  predicate IsOption(arg: string)
  {
    arg != [] && arg[0] == '-'
  }

  lemma FlagValuesOfTwo(h: seq<string>, key: string)
    requires |h| == 2
    ensures FlagValues(h, key) == FlagValue(h[0], key) + FlagValue(h[1], key)
  {
    assert h[1..][1..] == [];
  }

  lemma FlagValuesOfFour(h: seq<string>, key: string)
    requires |h| == 4
    ensures FlagValues(h, key)
         == FlagValue(h[0], key) + FlagValue(h[1], key) + FlagValue(h[2], key) + FlagValue(h[3], key)
  {
    assert h == h[..2] + h[2..];
    FlagValuesConcat(h[..2], h[2..], key);
    FlagValuesOfTwo(h[..2], key);
    FlagValuesOfTwo(h[2..], key);
  }

  lemma FlagValuesOfThree(h: seq<string>, key: string)
    requires |h| == 3
    ensures FlagValues(h, key) == FlagValue(h[0], key) + FlagValue(h[1], key) + FlagValue(h[2], key)
  {
    assert h[1..] == h[1..3];
    FlagValuesOfTwo(h[1..], key);
  }

  lemma PositionalsOfTwo(h: seq<string>)
    requires |h| == 2
    ensures Positionals(h) == Positional(h[0]) + Positional(h[1])
  {
    assert h[1..][1..] == [];
  }

  lemma PositionalsOfFour(h: seq<string>)
    requires |h| == 4
    ensures Positionals(h) == Positional(h[0]) + Positional(h[1]) + Positional(h[2]) + Positional(h[3])
  {
    assert h == h[..2] + h[2..];
    PositionalsConcat(h[..2], h[2..]);
    PositionalsOfTwo(h[..2]);
    PositionalsOfTwo(h[2..]);
  }

  lemma PositionalsOfThree(h: seq<string>)
    requires |h| == 3
    ensures Positionals(h) == Positional(h[0]) + Positional(h[1]) + Positional(h[2])
  {
    assert h[1..] == h[1..3];
    PositionalsOfTwo(h[1..]);
  }

  /** The trailing `--dryrun`, if any. */
  function DryRunArgs(dryrun: bool): seq<string>
  {
    if dryrun then ["--dryrun"] else []
  }

  /** Option values of a vector: those of its head, of the exclusions, of the dry-run flag. */
  lemma ArgvFlagValues(head: seq<string>, items: seq<string>, dryrun: bool, key: string)
    ensures FlagValues(WithDryRun(head + ExcludeArgs(items), dryrun), key)
         == FlagValues(head, key) + FlagValues(ExcludeArgs(items), key) + FlagValues(DryRunArgs(dryrun), key)
  {
    var e := ExcludeArgs(items);
    var d := DryRunArgs(dryrun);
    assert WithDryRun(head + e, dryrun) == head + e + d;
    FlagValuesConcat(head + e, d, key);
    FlagValuesConcat(head, e, key);
  }

  /** Operands of a vector: those of its head, of the exclusions, of the dry-run flag. */
  lemma ArgvPositionals(head: seq<string>, items: seq<string>, dryrun: bool)
    ensures Positionals(WithDryRun(head + ExcludeArgs(items), dryrun))
         == Positionals(head) + Positionals(ExcludeArgs(items)) + Positionals(DryRunArgs(dryrun))
  {
    var e := ExcludeArgs(items);
    var d := DryRunArgs(dryrun);
    assert WithDryRun(head + e, dryrun) == head + e + d;
    PositionalsConcat(head + e, d);
    PositionalsConcat(head, e);
  }

  /** Exclusions and the dry-run flag add no operand: the vector's operands are its head's. */
  lemma TailOperands(head: seq<string>, items: seq<string>, dryrun: bool)
    ensures Positionals(WithDryRun(head + ExcludeArgs(items), dryrun)) == Positionals(head)
  {
    ArgvPositionals(head, items, dryrun);
    DryRunArgsInert(dryrun, "--profile=");
  }

  /** Exclusions and the dry-run flag carry no option other than `--exclude=`. */
  lemma TailFlagValues(head: seq<string>, items: seq<string>, dryrun: bool, key: string)
    requires |key| >= 3 && key[2] != 'e' && key[2] != 'd'
    ensures FlagValues(WithDryRun(head + ExcludeArgs(items), dryrun), key) == FlagValues(head, key)
  {
    ArgvFlagValues(head, items, dryrun, key);
    ExcludeArgsOnlyExclude(items, key);
    DryRunArgsInert(dryrun, key);
  }

  /** The `--exclude=` values of a vector are its head's followed by the excluded items. */
  lemma TailExcludes(head: seq<string>, items: seq<string>, dryrun: bool)
    ensures FlagValues(WithDryRun(head + ExcludeArgs(items), dryrun), "--exclude=")
         == FlagValues(head, "--exclude=") + items
  {
    ArgvFlagValues(head, items, dryrun, "--exclude=");
    DryRunArgsInert(dryrun, "--exclude=");
  }

  /** The dry-run flag carries no option value and is no operand. */
  lemma DryRunArgsInert(dryrun: bool, key: string)
    requires |key| >= 3 && key[2] != 'd'
    ensures FlagValues(DryRunArgs(dryrun), key) == []
    ensures Positionals(DryRunArgs(dryrun)) == []
  {
    if dryrun {
      assert "--dryrun"[2] == 'd';
      assert !StartsWith("--dryrun", key);
      assert IsOption("--dryrun");
    }
  }

  /** An argument that differs from `key` within the length of `key` does not carry that option. */
  lemma DiffersAt(arg: string, key: string, i: nat)
    requires i < |arg| && i < |key| && arg[i] != key[i]
    ensures FlagValue(arg, key) == []
  {
  }

  /** `key` + `v` carries option `key` with value `v`. */
  lemma CarriesValue(key: string, v: string)
    ensures FlagValue(key + v, key) == [v]
  {
    assert (key + v)[..|key|] == key;
    assert (key + v)[|key|..] == v;
  }

  /** The eight fixed arguments of the upload command. */
  function UploadHead(conf: Config): seq<string>
  {
    ["aws", "--profile=" + conf.awsProfile, "s3", "sync", ".", BuildS3Path(conf),
     "--storage-class=" + conf.s3StorageClass, "--delete"]
  }

  /** The seven fixed arguments of the download command. */
  function DownloadHead(conf: Config): seq<string>
  {
    ["aws", "--profile=" + conf.awsProfile, "s3", "sync", BuildS3Path(conf), ".", "--delete"]
  }

  lemma UploadHeadProfile(conf: Config)
    ensures FlagValues(UploadHead(conf), "--profile=") == [conf.awsProfile]
  {
    var h, key := UploadHead(conf), "--profile=";
    assert h == h[..4] + h[4..];
    FlagValuesConcat(h[..4], h[4..], key);
    FlagValuesOfFour(h[..4], key);
    FlagValuesOfFour(h[4..], key);
    CarriesValue(key, conf.awsProfile);
    DiffersAt(h[5], key, 0);
    DiffersAt(h[6], key, 2);
  }

  lemma UploadHeadStorageClass(conf: Config)
    ensures FlagValues(UploadHead(conf), "--storage-class=") == [conf.s3StorageClass]
  {
    var h, key := UploadHead(conf), "--storage-class=";
    assert h == h[..4] + h[4..];
    FlagValuesConcat(h[..4], h[4..], key);
    FlagValuesOfFour(h[..4], key);
    FlagValuesOfFour(h[4..], key);
    CarriesValue(key, conf.s3StorageClass);
    DiffersAt(h[1], key, 2);
    DiffersAt(h[5], key, 0);
  }

  lemma UploadHeadExclude(conf: Config)
    ensures FlagValues(UploadHead(conf), "--exclude=") == []
  {
    var h, key := UploadHead(conf), "--exclude=";
    assert h == h[..4] + h[4..];
    FlagValuesConcat(h[..4], h[4..], key);
    FlagValuesOfFour(h[..4], key);
    FlagValuesOfFour(h[4..], key);
    DiffersAt(h[1], key, 2);
    DiffersAt(h[5], key, 0);
    DiffersAt(h[6], key, 2);
  }

  lemma UploadHeadOperands(conf: Config)
    ensures Positionals(UploadHead(conf)) == ["aws", "s3", "sync", ".", BuildS3Path(conf)]
  {
    var h := UploadHead(conf);
    assert h == h[..4] + h[4..];
    PositionalsConcat(h[..4], h[4..]);
    PositionalsOfFour(h[..4]);
    PositionalsOfFour(h[4..]);
    assert IsOption(h[1]) && IsOption(h[6]) && IsOption(h[7]);
    assert h[5][0] == 's';
  }

  lemma DownloadHeadProfile(conf: Config)
    ensures FlagValues(DownloadHead(conf), "--profile=") == [conf.awsProfile]
  {
    var h, key := DownloadHead(conf), "--profile=";
    assert h == h[..4] + h[4..];
    FlagValuesConcat(h[..4], h[4..], key);
    FlagValuesOfFour(h[..4], key);
    FlagValuesOfThree(h[4..], key);
    CarriesValue(key, conf.awsProfile);
    DiffersAt(h[4], key, 0);
  }

  /** The four arguments both commands start with. */
  function CommandPrefix(profile: string): seq<string>
  {
    ["aws", "--profile=" + profile, "s3", "sync"]
  }

  /** The last three fixed arguments of the download command. */
  function DownloadTail(remote: string): seq<string>
  {
    [remote, ".", "--delete"]
  }

  /** `aws --profile=… s3 sync` carries no option except those its profile argument starts with. */
  lemma CommandPrefixNoOtherOption(profile: string, key: string)
    requires key != [] && key[0] == '-' && !StartsWith("--profile=" + profile, key)
    ensures FlagValues(CommandPrefix(profile), key) == []
  {
    var h := CommandPrefix(profile);
    FlagValuesOfFour(h, key);
    DiffersAt(h[0], key, 0);
    DiffersAt(h[2], key, 0);
    DiffersAt(h[3], key, 0);
  }

  /** The remote location starts with `s`, so it is neither an option nor a match for one. */
  lemma RemoteIsNoOption(conf: Config)
    ensures BuildS3Path(conf) != [] && BuildS3Path(conf)[0] == 's'
  {
    var r := BuildS3Path(conf);
    assert r[..5] == "s3://";
    assert r[0] == r[..5][0];
  }

  /** `<remote> . --delete` carries no option except those `--delete` starts with. */
  lemma DownloadTailNoOtherOption(remote: string, key: string)
    requires remote != [] && remote[0] == 's'
    requires key != [] && key[0] == '-' && !StartsWith("--delete", key)
    ensures FlagValues(DownloadTail(remote), key) == []
  {
    var t := DownloadTail(remote);
    FlagValuesOfThree(t, key);
    DiffersAt(t[0], key, 0);
    DiffersAt(t[1], key, 0);
  }

  /** The download head is the common prefix followed by its tail. */
  lemma DownloadHeadSplits(conf: Config)
    ensures DownloadHead(conf) == CommandPrefix(conf.awsProfile) + DownloadTail(BuildS3Path(conf))
  {
  }

  /**
   * The fixed download arguments carry no option at all, except one the
   * profile argument or `--delete` itself starts with.
   */
  lemma DownloadHeadNoOtherOption(conf: Config, key: string)
    requires key != [] && key[0] == '-'
    requires !StartsWith("--profile=" + conf.awsProfile, key) && !StartsWith("--delete", key)
    ensures FlagValues(DownloadHead(conf), key) == []
  {
    DownloadHeadSplits(conf);
    FlagValuesConcat(CommandPrefix(conf.awsProfile), DownloadTail(BuildS3Path(conf)), key);
    CommandPrefixNoOtherOption(conf.awsProfile, key);
    RemoteIsNoOption(conf);
    DownloadTailNoOtherOption(BuildS3Path(conf), key);
  }

  lemma DownloadHeadOperands(conf: Config)
    ensures Positionals(DownloadHead(conf)) == ["aws", "s3", "sync", BuildS3Path(conf), "."]
  {
    var h := DownloadHead(conf);
    assert h == h[..4] + h[4..];
    PositionalsConcat(h[..4], h[4..]);
    PositionalsOfFour(h[..4]);
    PositionalsOfThree(h[4..]);
    assert IsOption(h[1]) && IsOption(h[6]);
    assert h[4][0] == 's';
  }

  lemma UploadOperands(conf: Config, dryrun: bool)
    ensures Positionals(UploadArgv(conf, dryrun)) == ["aws", "s3", "sync", ".", BuildS3Path(conf)]
  {
    TailOperands(UploadHead(conf), ExcludeItems, dryrun);
    UploadHeadOperands(conf);
  }

  lemma UploadProfile(conf: Config, dryrun: bool)
    ensures FlagValues(UploadArgv(conf, dryrun), "--profile=") == [conf.awsProfile]
  {
    TailFlagValues(UploadHead(conf), ExcludeItems, dryrun, "--profile=");
    UploadHeadProfile(conf);
  }

  lemma UploadStorageClass(conf: Config, dryrun: bool)
    ensures FlagValues(UploadArgv(conf, dryrun), "--storage-class=") == [conf.s3StorageClass]
  {
    TailFlagValues(UploadHead(conf), ExcludeItems, dryrun, "--storage-class=");
    UploadHeadStorageClass(conf);
  }

  lemma UploadExcludes(conf: Config, dryrun: bool)
    ensures FlagValues(UploadArgv(conf, dryrun), "--exclude=") == ExcludeItems
  {
    TailExcludes(UploadHead(conf), ExcludeItems, dryrun);
    UploadHeadExclude(conf);
  }

  /**
   * What `aws` reads from the upload command: the operands `.` then the
   * remote location, the configured profile and storage class once each,
   * and every excluded name in order.
   */
  lemma UploadReadsAs(conf: Config, dryrun: bool)
    ensures var argv := UploadArgv(conf, dryrun);
      && Positionals(argv) == ["aws", "s3", "sync", ".", BuildS3Path(conf)]
      && FlagValues(argv, "--profile=") == [conf.awsProfile]
      && FlagValues(argv, "--storage-class=") == [conf.s3StorageClass]
      && FlagValues(argv, "--exclude=") == ExcludeItems
  {
    UploadOperands(conf, dryrun);
    UploadProfile(conf, dryrun);
    UploadStorageClass(conf, dryrun);
    UploadExcludes(conf, dryrun);
  }

  lemma DownloadOperands(conf: Config, dryrun: bool)
    ensures Positionals(DownloadArgv(conf, dryrun)) == ["aws", "s3", "sync", BuildS3Path(conf), "."]
  {
    TailOperands(DownloadHead(conf), ExcludeItems, dryrun);
    DownloadHeadOperands(conf);
  }

  lemma DownloadProfile(conf: Config, dryrun: bool)
    ensures FlagValues(DownloadArgv(conf, dryrun), "--profile=") == [conf.awsProfile]
  {
    TailFlagValues(DownloadHead(conf), ExcludeItems, dryrun, "--profile=");
    DownloadHeadProfile(conf);
  }

  /** Neither the profile argument nor `--delete` starts with `--storage-class=`. */
  lemma StorageClassNotInHead(profile: string)
    ensures !StartsWith("--profile=" + profile, "--storage-class=") && !StartsWith("--delete", "--storage-class=")
  {
    DiffersAt("--profile=" + profile, "--storage-class=", 2);
    DiffersAt("--delete", "--storage-class=", 2);
  }

  /** Neither the profile argument nor `--delete` starts with `--exclude=`. */
  lemma ExcludeNotInHead(profile: string)
    ensures !StartsWith("--profile=" + profile, "--exclude=") && !StartsWith("--delete", "--exclude=")
  {
    DiffersAt("--profile=" + profile, "--exclude=", 2);
    DiffersAt("--delete", "--exclude=", 3);
  }

  lemma DownloadStorageClass(conf: Config, dryrun: bool)
    ensures FlagValues(DownloadArgv(conf, dryrun), "--storage-class=") == []
  {
    TailFlagValues(DownloadHead(conf), ExcludeItems, dryrun, "--storage-class=");
    StorageClassNotInHead(conf.awsProfile);
    DownloadHeadNoOtherOption(conf, "--storage-class=");
  }

  lemma DownloadExcludes(conf: Config, dryrun: bool)
    ensures FlagValues(DownloadArgv(conf, dryrun), "--exclude=") == ExcludeItems
  {
    TailExcludes(DownloadHead(conf), ExcludeItems, dryrun);
    ExcludeNotInHead(conf.awsProfile);
    DownloadHeadNoOtherOption(conf, "--exclude=");
  }

  /**
   * What `aws` reads from the download command: the remote location then
   * `.`, the configured profile, no storage class at all, and every
   * excluded name in order.
   */
  lemma DownloadReadsAs(conf: Config, dryrun: bool)
    ensures var argv := DownloadArgv(conf, dryrun);
      && Positionals(argv) == ["aws", "s3", "sync", BuildS3Path(conf), "."]
      && FlagValues(argv, "--profile=") == [conf.awsProfile]
      && FlagValues(argv, "--storage-class=") == []
      && FlagValues(argv, "--exclude=") == ExcludeItems
  {
    DownloadOperands(conf, dryrun);
    DownloadProfile(conf, dryrun);
    DownloadStorageClass(conf, dryrun);
    DownloadExcludes(conf, dryrun);
  }

  /** Only the trailing flag can be `--dryrun` when nothing in the command spells it. */
  lemma DryRunOnlyAtEnd(cmd: seq<string>, dryrun: bool)
    requires forall k :: 0 <= k < |cmd| ==> cmd[k] != "--dryrun"
    ensures var argv := WithDryRun(cmd, dryrun);
      && ("--dryrun" in argv <==> dryrun)
      && (dryrun <==> argv != [] && argv[|argv| - 1] == "--dryrun")
      && (forall k :: 0 <= k < |argv| - 1 ==> argv[k] != "--dryrun")
  {
    var argv := WithDryRun(cmd, dryrun);
    assert forall k :: 0 <= k < |cmd| ==> argv[k] == argv[..|cmd|][k];
  }

  /** No argument of a head free of `--dryrun`, followed by exclusions, is `--dryrun`. */
  lemma NoDryRunBeforeFlag(head: seq<string>, items: seq<string>)
    requires forall k :: 0 <= k < |head| ==> head[k] != "--dryrun"
    ensures forall k :: 0 <= k < |head + ExcludeArgs(items)| ==> (head + ExcludeArgs(items))[k] != "--dryrun"
  {
    var e := ExcludeArgs(items);
    ExcludeArgsOnlyExclude(items, "--profile=");
    forall k | |head| <= k < |head + e|
      ensures (head + e)[k] != "--dryrun"
    {
      assert (head + e)[k] == e[k - |head|];
    }
  }

  /** The upload command mirrors with `--delete` and carries `--dryrun` only last, only on a dry run. */
  lemma UploadFlags(conf: Config, dryrun: bool)
    ensures var up := UploadArgv(conf, dryrun);
      && "--delete" in up
      && ("--dryrun" in up <==> dryrun)
      && (dryrun <==> up[|up| - 1] == "--dryrun")
      && (forall k :: 0 <= k < |up| - 1 ==> up[k] != "--dryrun")
  {
    var uh := UploadHead(conf);
    RemoteIsNoOption(conf);
    assert |uh[1]| >= 10 && |uh[6]| >= 16;
    NoDryRunBeforeFlag(uh, ExcludeItems);
    DryRunOnlyAtEnd(uh + ExcludeArgs(ExcludeItems), dryrun);
    assert UploadArgv(conf, dryrun)[7] == "--delete";
  }

  /** The download command mirrors with `--delete` and carries `--dryrun` only last, only on a dry run. */
  lemma DownloadFlags(conf: Config, dryrun: bool)
    ensures var down := DownloadArgv(conf, dryrun);
      && "--delete" in down
      && ("--dryrun" in down <==> dryrun)
      && (dryrun <==> down[|down| - 1] == "--dryrun")
      && (forall k :: 0 <= k < |down| - 1 ==> down[k] != "--dryrun")
  {
    var dh := DownloadHead(conf);
    RemoteIsNoOption(conf);
    assert |dh[1]| >= 10;
    NoDryRunBeforeFlag(dh, ExcludeItems);
    DryRunOnlyAtEnd(dh + ExcludeArgs(ExcludeItems), dryrun);
    assert DownloadArgv(conf, dryrun)[6] == "--delete";
  }

  /**
   * Both commands mirror with `--delete`, and end in `--dryrun` exactly when
   * a dry run was asked for (`--dryrun` appears nowhere else).
   */
  lemma SyncFlags(conf: Config, dryrun: bool)
    ensures var up := UploadArgv(conf, dryrun);
      && "--delete" in up
      && ("--dryrun" in up <==> dryrun)
      && (dryrun <==> up[|up| - 1] == "--dryrun")
      && (forall k :: 0 <= k < |up| - 1 ==> up[k] != "--dryrun")
    ensures var down := DownloadArgv(conf, dryrun);
      && "--delete" in down
      && ("--dryrun" in down <==> dryrun)
      && (dryrun <==> down[|down| - 1] == "--dryrun")
      && (forall k :: 0 <= k < |down| - 1 ==> down[k] != "--dryrun")
  {
    UploadFlags(conf, dryrun);
    DownloadFlags(conf, dryrun);
  }

  /** `upload`: load the configuration, then build the upload command from it. */
  method Upload(confExists: bool, parsed: Config, dirName: string, dryrun: bool)
    returns (r: Result<seq<string>, LoadError>)
    ensures !confExists ==> r == Failure(ConfigNotFound)
    ensures confExists ==> r == Success(UploadArgv(ResolvePrefix(parsed, dirName), dryrun))
  {
    var loaded := LoadConf(confExists, parsed, dirName);
    match loaded
    case Failure(e) => return Failure(e);
    case Success(conf) => return Success(UploadArgv(conf, dryrun));
  }

  /** `download`: load the configuration, then build the download command from it. */
  method Download(confExists: bool, parsed: Config, dirName: string, dryrun: bool)
    returns (r: Result<seq<string>, LoadError>)
    ensures !confExists ==> r == Failure(ConfigNotFound)
    ensures confExists ==> r == Success(DownloadArgv(ResolvePrefix(parsed, dirName), dryrun))
  {
    var loaded := LoadConf(confExists, parsed, dirName);
    match loaded
    case Failure(e) => return Failure(e);
    case Success(conf) => return Success(DownloadArgv(conf, dryrun));
  }
}
