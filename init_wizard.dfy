/**
 * `init`: the first-run wizard. The global template (if any) seeds the
 * configuration; each field still empty is asked for, with the directory
 * name and `STANDARD` as fallbacks for an empty prefix or storage class.
 * The wizard's writes are returned as values rather than performed.
 */
module InitWizard {
  import opened Wrappers
  import opened Conf
  import opened Exclusions

  /**
   * The global template as parsed: a field is `None` when its key is
   * missing or its value is JSON `null`.
   */
  datatype Template = Template(
    awsProfile: Option<string>,
    s3Bucket: Option<string>,
    s3PathPrefix: Option<string>,
    s3StorageClass: Option<string>)

  /** What the user would type at each of the four prompts. */
  datatype Answers = Answers(
    profile: string,
    bucket: string,
    prefix: string,
    storageClass: string)

  /** The files `init` writes; a README is written only when none exists. */
  datatype InitOutcome =
    | AlreadyExists
    | Created(conf: Config, gitignore: string, readme: Option<string>)

  const DefaultStorageClass: string := "STANDARD"

  /** Python truthiness of `conf.get(key, "")`: present, not null and non-empty. */
  predicate Filled(field: Option<string>)
  {
    field.Some? && field.value != ""
  }

  /** A field after the wizard: kept if filled, else the answer, else the fallback. */
  function FillField(field: Option<string>, answer: string, fallback: string): (r: string)
    ensures Filled(field) ==> r == field.value
    ensures !Filled(field) && answer != "" ==> r == answer
    ensures !Filled(field) && answer == "" ==> r == fallback
  {
    if Filled(field) then field.value else if answer != "" then answer else fallback
  }

  /** The configuration the wizard settles on. */
  function FilledConfig(global: Option<Template>, dirName: string, answers: Answers): (r: Config)
    ensures global.Some? && Filled(global.value.awsProfile) ==> r.awsProfile == global.value.awsProfile.value
    ensures global.Some? && Filled(global.value.s3Bucket) ==> r.s3Bucket == global.value.s3Bucket.value
    ensures global.Some? && Filled(global.value.s3PathPrefix) ==> r.s3PathPrefix == global.value.s3PathPrefix.value
    ensures global.Some? && Filled(global.value.s3StorageClass) ==> r.s3StorageClass == global.value.s3StorageClass.value
    ensures !(global.Some? && Filled(global.value.awsProfile)) ==> r.awsProfile == answers.profile
    ensures !(global.Some? && Filled(global.value.s3Bucket)) ==> r.s3Bucket == answers.bucket
    ensures !(global.Some? && Filled(global.value.s3PathPrefix))
        ==> r.s3PathPrefix == (if answers.prefix != "" then answers.prefix else dirName)
    ensures !(global.Some? && Filled(global.value.s3StorageClass))
        ==> r.s3StorageClass == (if answers.storageClass != "" then answers.storageClass else DefaultStorageClass)
  {
    var t := if global.Some? then global.value else Template(Some(""), Some(""), Some(""), Some(""));
    Config(
      FillField(t.awsProfile, answers.profile, ""),
      FillField(t.s3Bucket, answers.bucket, ""),
      FillField(t.s3PathPrefix, answers.prefix, dirName),
      FillField(t.s3StorageClass, answers.storageClass, DefaultStorageClass))
  }

  /**
   * `init`: refuses when the configuration already exists; otherwise fills
   * the template one field at a time and reports the three files written.
   */
  method Init(confExists: bool, global: Option<Template>, dirName: string, readmeExists: bool, answers: Answers)
    returns (r: InitOutcome)
    ensures confExists <==> r == AlreadyExists
    ensures !confExists ==>
      && r.Created?
      && r.conf == FilledConfig(global, dirName, answers)
      && r.gitignore == GitIgnore
      && r.readme == (if readmeExists then None else Some(ReadmeLine(r.conf)))
  {
    if confExists {
      return AlreadyExists;
    }
    var conf := if global.Some? then global.value else Template(Some(""), Some(""), Some(""), Some(""));
    ghost var t := conf;
    if !Filled(conf.awsProfile) {
      conf := conf.(awsProfile := Some(answers.profile));
    }
    if !Filled(conf.s3Bucket) {
      conf := conf.(s3Bucket := Some(answers.bucket));
    }
    if !Filled(conf.s3PathPrefix) {
      conf := conf.(s3PathPrefix := Some(answers.prefix));
      if conf.s3PathPrefix.value == "" {
        conf := conf.(s3PathPrefix := Some(dirName));
      }
    }
    if !Filled(conf.s3StorageClass) {
      conf := conf.(s3StorageClass := Some(answers.storageClass));
      if conf.s3StorageClass.value == "" {
        conf := conf.(s3StorageClass := Some(DefaultStorageClass));
      }
    }
    assert conf.awsProfile.value == FillField(t.awsProfile, answers.profile, "");
    assert conf.s3Bucket.value == FillField(t.s3Bucket, answers.bucket, "");
    assert conf.s3PathPrefix.value == FillField(t.s3PathPrefix, answers.prefix, dirName);
    assert conf.s3StorageClass.value == FillField(t.s3StorageClass, answers.storageClass, DefaultStorageClass);
    var written := Config(conf.awsProfile.value, conf.s3Bucket.value, conf.s3PathPrefix.value, conf.s3StorageClass.value);
    var readme := if readmeExists then None else Some(ReadmeLine(written));
    return Created(written, GitIgnore, readme);
  }

  /** A complete template is written as it is: no answer is used. */
  lemma CompleteTemplateKept(t: Template, dirName: string, answers: Answers)
    requires Filled(t.awsProfile) && Filled(t.s3Bucket) && Filled(t.s3PathPrefix) && Filled(t.s3StorageClass)
    ensures FilledConfig(Some(t), dirName, answers)
         == Config(t.awsProfile.value, t.s3Bucket.value, t.s3PathPrefix.value, t.s3StorageClass.value)
  {
  }

  /**
   * With no template and every prompt answered, the configuration holds
   * exactly the four answers.
   */
  lemma AnsweredWithoutTemplate(dirName: string, answers: Answers)
    requires answers.prefix != "" && answers.storageClass != ""
    ensures FilledConfig(None, dirName, answers)
         == Config(answers.profile, answers.bucket, answers.prefix, answers.storageClass)
  {
  }

  /**
   * The storage class always ends up non-empty, and so does the prefix
   * whenever the directory has a name; profile and bucket may stay empty if
   * the answer was empty.
   */
  lemma FilledFieldsNonEmpty(global: Option<Template>, dirName: string, answers: Answers)
    ensures FilledConfig(global, dirName, answers).s3StorageClass != ""
    ensures dirName != "" ==> FilledConfig(global, dirName, answers).s3PathPrefix != ""
    ensures answers.profile != "" ==> FilledConfig(global, dirName, answers).awsProfile != ""
    ensures answers.bucket != "" ==> FilledConfig(global, dirName, answers).s3Bucket != ""
  {
  }
}
