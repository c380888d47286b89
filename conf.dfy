/**
 * The project configuration (`s3-project-backup.json`) once parsed, the
 * substitution of the `"DIRNAME"` placeholder done by `load_conf`, and the
 * remote location `s3://bucket/prefix/` built from it.
 */
module Conf {
  import opened Wrappers
  import opened Text

  /** The four fields of the configuration file. */
  datatype Config = Config(
    awsProfile: string,
    s3Bucket: string,
    s3PathPrefix: string,
    s3StorageClass: string)

  /** Placeholder prefix meaning "use the name of the current directory". */
  const DirnameSentinel: string := "DIRNAME"

  /** File name of the project configuration. */
  const ConfPath: string := "s3-project-backup.json"

  datatype LoadError = ConfigNotFound

  /** The configuration after the placeholder prefix has been resolved. */
  function ResolvePrefix(conf: Config, dirName: string): (r: Config)
    ensures r.awsProfile == conf.awsProfile
    ensures r.s3Bucket == conf.s3Bucket
    ensures r.s3StorageClass == conf.s3StorageClass
    ensures conf.s3PathPrefix == DirnameSentinel ==> r.s3PathPrefix == dirName
    ensures conf.s3PathPrefix != DirnameSentinel ==> r == conf
  {
    if conf.s3PathPrefix == DirnameSentinel then conf.(s3PathPrefix := dirName) else conf
  }

  /** Resolving twice against the same directory changes nothing more. */
  lemma ResolvePrefixIdempotent(conf: Config, dirName: string)
    ensures ResolvePrefix(ResolvePrefix(conf, dirName), dirName) == ResolvePrefix(conf, dirName)
  {
  }

  /** Unless the directory itself is called `DIRNAME`, no placeholder survives resolution. */
  lemma ResolvePrefixRemovesSentinel(conf: Config, dirName: string)
    requires dirName != DirnameSentinel
    ensures ResolvePrefix(conf, dirName).s3PathPrefix != DirnameSentinel
  {
  }

  /**
   * `load_conf`: fails when the configuration file is absent; otherwise takes
   * the parsed record and overwrites a placeholder prefix with the base name
   * of the current directory.
   */
  method LoadConf(confExists: bool, parsed: Config, dirName: string) returns (r: Result<Config, LoadError>)
    ensures !confExists ==> r == Failure(ConfigNotFound)
    ensures confExists ==> r == Success(ResolvePrefix(parsed, dirName))
  {
    if !confExists {
      return Failure(ConfigNotFound);
    }
    var conf := parsed;
    if conf.s3PathPrefix == DirnameSentinel {
      conf := conf.(s3PathPrefix := dirName);
    }
    return Success(conf);
  }

  /** `build_s3_path`: the remote location `s3://<bucket>/<prefix>/`. */
  function BuildS3Path(conf: Config): (r: string)
    ensures StartsWith(r, "s3://")
    ensures |r| == |conf.s3Bucket| + |conf.s3PathPrefix| + 7 && r[|r| - 1] == '/'
  {
    "s3://" + conf.s3Bucket + "/" + conf.s3PathPrefix + "/"
  }

  /**
   * Reads a remote location back into bucket and prefix: the bucket runs up
   * to the first `/` after the scheme, the prefix up to the final `/`.
   */
  function ParseS3Path(s: string): (r: Option<(string, string)>)
    ensures r.Some? ==> '/' !in r.value.0
  {
    if |s| < 6 || s[..5] != "s3://" || s[|s| - 1] != '/' then None
    else
      var body := s[5..|s| - 1];
      if '/' !in body then None
      else
        var i := IndexOf(body, '/');
        Some((body[..i], body[i + 1..]))
  }

  /**
   * The location names the configured bucket and prefix: parsing it back
   * recovers both, for any bucket name without `/` (S3 bucket names never
   * contain one).
   */
  lemma {:induction false} ParseBuildS3Path(conf: Config)
    requires '/' !in conf.s3Bucket
    ensures ParseS3Path(BuildS3Path(conf)) == Some((conf.s3Bucket, conf.s3PathPrefix))
  {
    var s := BuildS3Path(conf);
    var body := conf.s3Bucket + ['/'] + conf.s3PathPrefix;
    assert s[..5] == "s3://";
    assert s[5..|s| - 1] == body;
    IndexOfAfter(conf.s3Bucket, '/', conf.s3PathPrefix);
    assert body[..|conf.s3Bucket|] == conf.s3Bucket;
    assert body[|conf.s3Bucket| + 1..] == conf.s3PathPrefix;
  }

  /**
   * The location ends in a single `/` exactly when the prefix is non-empty
   * and does not itself end in `/`; otherwise it ends in `//`.
   */
  lemma SingleTrailingSlash(conf: Config)
    ensures var s := BuildS3Path(conf);
      s[|s| - 2] != '/' <==> (conf.s3PathPrefix != [] && conf.s3PathPrefix[|conf.s3PathPrefix| - 1] != '/')
  {
    var s := BuildS3Path(conf);
    var p := conf.s3PathPrefix;
    if p == [] {
      assert s[|s| - 2] == '/';
    } else {
      assert s[|s| - 2] == p[|p| - 1];
    }
  }

  /** The line `init` writes into a fresh README.md: the location without its trailing `/`. */
  function ReadmeLine(conf: Config): (r: string)
    ensures var loc := BuildS3Path(conf); r == "# " + loc[..|loc| - 1] + "\n"
  {
    "# s3://" + conf.s3Bucket + "/" + conf.s3PathPrefix + "\n"
  }
}
