/**
 * The `Deploy` object: the guard of `initialize`, the memoised
 * `project_name`, `set_envs` updating `@envs` key by key, and `prepare`,
 * which returns the two files it writes instead of writing them.
 */
module DeployDriver {
  import opened Wrappers
  import opened OrderedMap
  import opened Envs
  import opened Names
  import opened Defaults
  import opened Validation
  import opened EnvFile
  import opened Compose

  /** The contents of `.env` and `docker-compose.yml` as `prepare` writes them. */
  datatype Written = Written(envFile: string, composeFile: Document)

  /** Whether `set_envs` asks for `project_name`: one of the four defaults built from it is needed. */
  predicate UsesProjectName(env: Env) {
    Lookup(env, ProjectNameKey).None? || Lookup(env, PostgresDbKey).None? ||
    Lookup(env, PostgresUserKey).None? || Lookup(env, ImageKey).None?
  }

  class Deploy {
    /** DEPLOY_SERVER, read from ENV when the class is loaded. */
    const deployServer: string
    /** IMAGE_REPOSITORY_PREFIX, read from ENV when the class is loaded. */
    const imagePrefix: string
    /** What the object reads from the working directory, its files and SecureRandom. */
    const workspace: Workspace
    /** `@project_name`. */
    var projectNameMemo: Option<string>
    /** `@envs`: unset until `prepare` assigns it, modelled as the empty map. */
    var envs: Env

    ghost predicate Valid()
      reads this
    {
      projectNameMemo.Some? ==> projectNameMemo.value == workspace.dirName
    }

    constructor (deployServer: string, imagePrefix: string, workspace: Workspace)
      ensures Valid()
      ensures this.deployServer == deployServer && this.imagePrefix == imagePrefix
      ensures this.workspace == workspace
      ensures projectNameMemo == None && envs == []
    {
      this.deployServer := deployServer;
      this.imagePrefix := imagePrefix;
      this.workspace := workspace;
      projectNameMemo := None;
      envs := [];
    }

    /** `Deploy.new`: raises unless both class constants were set. */
    static method New(deployServer: Option<string>, imagePrefix: Option<string>, workspace: Workspace)
      returns (r: Result<Deploy, Error>)
      ensures r.Failure? <==> deployServer.None? || imagePrefix.None?
      ensures r.Failure? ==> r.error == MissingRequiredEnv
      ensures r.Failure? ==> Message(r.error) == "Missing required ENV variables!"
      ensures r.Success? ==>
        fresh(r.value) && r.value.Valid() &&
        r.value.deployServer == deployServer.value && r.value.imagePrefix == imagePrefix.value &&
        r.value.workspace == workspace && r.value.projectNameMemo == None
    {
      if deployServer.None? || imagePrefix.None? {
        return Failure(MissingRequiredEnv);
      }
      var d := new Deploy(deployServer.value, imagePrefix.value, workspace);
      return Success(d);
    }

    /** `project_name`: the working directory's base name, computed once and kept. */
    method ProjectName() returns (name: string)
      requires Valid()
      modifies this`projectNameMemo
      ensures Valid()
      ensures name == workspace.dirName && projectNameMemo == Some(name)
    {
      if projectNameMemo.None? {
        projectNameMemo := Some(workspace.dirName);
      }
      name := projectNameMemo.value;
    }

    /** `@envs[k] ||= v`, for a default that does not need `project_name`. */
    method AssignDefault(k: string, v: string)
      modifies this`envs
      ensures envs == FillDefault(old(envs), k, v)
    {
      if Lookup(envs, k).None? {
        envs := Put(envs, k, Some(v));
      }
    }

    /**
     * `@envs[k] ||= derive(project_name)`: `project_name` is asked for (and
     * memoised) only when the key looks up as nil.
     */
    method AssignDerived(k: string, derive: string -> string)
      requires Valid()
      modifies this`envs, this`projectNameMemo
      ensures Valid()
      ensures envs == FillDefault(old(envs), k, derive(workspace.dirName))
      ensures projectNameMemo ==
        if Lookup(old(envs), k).None? then Some(workspace.dirName) else old(projectNameMemo)
    {
      if Lookup(envs, k).None? {
        var name := ProjectName();
        envs := Put(envs, k, Some(derive(name)));
      }
    }

    /** `set_envs`: each `@envs[KEY] ||= default`, evaluating the default only when it is assigned. */
    method SetEnvs()
      requires Valid()
      modifies this`envs, this`projectNameMemo
      ensures Valid()
      ensures envs == WithDefaults(old(envs), imagePrefix, workspace)
      ensures projectNameMemo ==
        if UsesProjectName(old(envs)) then Some(workspace.dirName) else old(projectNameMemo)
    {
      var dir := workspace.dirName;
      ghost var e0 := envs;

      AssignDerived(ProjectNameKey, name => name);
      ghost var e1 := envs;
      FillDefaultOther(e0, ProjectNameKey, dir, PostgresDbKey);
      FillDefaultOther(e0, ProjectNameKey, dir, PostgresUserKey);
      FillDefaultOther(e0, ProjectNameKey, dir, ImageKey);

      AssignDerived(PostgresDbKey, PostgresDb);
      ghost var e2 := envs;
      FillDefaultOther(e1, PostgresDbKey, PostgresDb(dir), PostgresUserKey);
      FillDefaultOther(e1, PostgresDbKey, PostgresDb(dir), ImageKey);

      AssignDerived(PostgresUserKey, PostgresUser);
      ghost var e3 := envs;
      FillDefaultOther(e2, PostgresUserKey, PostgresUser(dir), ImageKey);

      AssignDefault(PostgresPasswordKey, workspace.postgresPassword);
      FillDefaultOther(e3, PostgresPasswordKey, workspace.postgresPassword, ImageKey);

      AssignDerived(ImageKey, name => Image(imagePrefix, name));
      AssignDefault(RubyVersionKey, workspace.rubyVersion);
      AssignDefault(SecretKeyBaseKey, workspace.secretKeyBase);
      AssignDefault(RailsMasterKeyKey, workspace.railsMasterKey);
      AssignDefault(ExecjsRuntimeKey, ExecjsRuntime());
      WithDefaultsUnfold(e0, imagePrefix, workspace);
    }

    /**
     * `prepare`: `@envs` becomes the parsed dotenv map with the defaults
     * filled in; the check raises on the first key that holds '', and then
     * nothing is written; otherwise the `.env` text and the compose document
     * are returned.
     */
    method Prepare(parsed: Env) returns (r: Result<Written, Error>)
      requires Valid()
      modifies this`envs, this`projectNameMemo
      ensures Valid()
      ensures envs == WithDefaults(parsed, imagePrefix, workspace)
      ensures r.Failure? <==> FirstEmpty(envs, CheckedKeys(envs)).Some?
      ensures r.Failure? ==> r.error == EmptyEnv(FirstEmpty(envs, CheckedKeys(envs)).value)
      ensures r.Failure? ==> Message(r.error) == "ENV " + FirstEmpty(envs, CheckedKeys(envs)).value + " is empty!"
      ensures r.Failure? ==>
        projectNameMemo == if UsesProjectName(parsed) then Some(workspace.dirName) else old(projectNameMemo)
      ensures r.Success? ==> projectNameMemo == Some(workspace.dirName)
      ensures r.Success? ==> r.value == Written(
        Render(envs),
        ComposeFile(workspace.dirName, Lookup(envs, HostnameKey), imagePrefix,
                    workspace.rubyVersion, workspace.nodeVersion))
    {
      envs := parsed;
      SetEnvs();
      var bad := FindEmpty(envs, CheckedKeys(envs));
      if bad.Some? {
        return Failure(EmptyEnv(bad.value));
      }
      var envText := Render(envs);
      var name := ProjectName();
      var doc := ComposeFile(name, Lookup(envs, HostnameKey), imagePrefix,
                             workspace.rubyVersion, workspace.nodeVersion);
      return Success(Written(envText, doc));
    }
  }
}
