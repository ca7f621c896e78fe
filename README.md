# single_server_deploy: a Dafny model of `Deploy#prepare`

`single_server_deploy` is a small Ruby deployment helper. Its `Deploy` class
does three things before it ships an application to a single server:

- It reads the dotenv files into `@envs`.
- It fills in defaults with `||=`: the project name, the Postgres database and
  user names, the image reference, the Ruby version and three random secrets.
- It checks that no checked key holds the empty string, then writes `.env`
  and `docker-compose.yml`.

The compose file declares one external network per service. It also declares
a `web` service with a fixed list of Traefik routing labels.

This project models that logic and proves its properties:

| module | file | what it models |
|---|---|---|
| `Wrappers` | `wrappers.dfy` | `Option` (Ruby's `nil`), `Result`, and the errors of `initialize`, the check and `execjs_runtime`, with their messages |
| `OrderedMap` | `ordered_map.dfy` | a Ruby Hash as an insertion-ordered sequence of entries; `h[k]` and `h[k] = v` |
| `Envs` | `envs.dfy` | `@envs`, whose values may be `nil`; `@envs[k]` and `@envs[k] \|\|= v` |
| `Names` | `names.dfy` | `image`, `postgres_db`, `postgres_user`, the first-occurrence `sub`, and the form of `SecureRandom.hex(n)` |
| `Defaults` | `defaults.dfy` | `set_envs` as a fold over its nine (key, default) pairs, with a reference definition and its properties; `execjs_runtime` as written and as corrected |
| `Validation` | `validation.dfy` | the check loop of `prepare` (a `method` with a `while` loop, proved against a recursive specification function) |
| `EnvFile` | `env_file.dfy` | the `.env` text, with a reference reader proving that it reads back |
| `Compose` | `compose.dfy` | the document `compose_file` builds, as datatypes: networks, the `web` service, its build arguments and labels |
| `DeployDriver` | `deploy.dfy` | the `Deploy` object as a class: the `initialize` guard, the memoised `project_name`, `set_envs` updating `@envs` key by key, and `prepare` |

A few conventions hold throughout:

- Everything the object reads from outside is an input. This covers the class
  constants `DEPLOY_SERVER` and `IMAGE_REPOSITORY_PREFIX`, the parsed dotenv
  map, the working directory's base name, the two version files and the three
  `SecureRandom.hex` results. The last six are bundled as `Defaults.Workspace`.
- `prepare` returns the two files' contents (`DeployDriver.Written`) instead
  of writing them.
- A raise becomes a `Failure` carrying `Wrappers.Error`.

Points where the code is easy to misread:

- The check rejects only values that are exactly `''`. Nothing is trimmed, so
  `' '` passes.
- An absent or `nil` HOSTNAME looks up `nil`, which differs from `''`, so it
  passes the check. The HOSTNAME entry of `REQUIRED_ENVS` can never change
  the outcome. `Validation.HostnameCheckRedundant` proves this.
- The required key set is only `HOSTNAME`. The version strings are taken as
  given; their trimming happens in the file read, which is an input here.
- There are eleven labels: the enable flag and ten others.
- `compose_file` uses `project_name` itself and re-reads the two version
  files. It does not use the `@envs` values for these. Only the hostname comes
  from `@envs`.

## Model

| member | source | states |
|---|---|---|
| OrderedMap.FindSpec | lib/deploy.rb:21 | a key search gives -1 exactly for an absent key, and otherwise the first position holding the key |
| OrderedMap.GetSome | lib/deploy.rb:21 | a Hash lookup finds a value exactly when the key is stored |
| OrderedMap.GetAt | lib/deploy.rb:24-26 | in a Hash, each stored entry is what a lookup of its key returns |
| OrderedMap.PutSpec | lib/deploy.rb:59 | `h[k] = v`: afterwards `k` maps to `v`; every other key maps as before; an existing key keeps its position, a new one is appended; keys stay unique |
| Envs.Lookup | lib/deploy.rb:99 | `@envs[k]` is non-nil only for a stored key; absent keys and keys holding nil both give nil |
| Envs.FillDefaultSpec | lib/deploy.rb:59-67 | `\|\|=` leaves the map unchanged when the key has a value, the empty string included; otherwise the key gets the default; other keys are unchanged; a missing key is appended, an existing one keeps its place |
| Envs.FillDefaultAbsent | lib/deploy.rb:59-67 | `\|\|=` on an absent key appends it with the default at the end |
| Envs.FillDefaultUnique | lib/deploy.rb:59-67 | `\|\|=` never stores a key twice |
| Envs.FillDefaultOther | lib/deploy.rb:59-67 | `\|\|=` on one key does not change the lookup of any other key |
| Names.FirstIndexOf | lib/deploy.rb:75 | the position of the first occurrence of a character, or the length when it does not occur |
| Names.ReplaceFirstSpec | lib/deploy.rb:75 | `sub` with a one-character pattern keeps the length and changes only the first occurrence |
| Names.ReplaceFirstAbsent | lib/deploy.rb:75 | without an occurrence, `sub` returns the string unchanged |
| Names.ReplaceFirstPresent | lib/deploy.rb:75 | with an occurrence, `sub` gives the prefix before it, the replacement, and the untouched rest |
| Names.ImageShape | lib/deploy.rb:74-76 | the image is the prefix and '/', then the project name with only its first '_' turned into '-', then "/web" |
| Names.ImageExample | lib/deploy.rb:74-76 | project "a_b_c" gives image `<prefix>/a-b_c/web`: only the first underscore changes |
| Names.PostgresNamesDistinct | lib/deploy.rb:78-84 | the database and user names determine the project name, and a database name never equals a user name |
| Names.SplitAtFirstJoin | lib/deploy.rb:25 | a `key=value` line with no '=' in the key splits back at its first '=' into key and value |
| Defaults.DefaultPairs | lib/deploy.rb:58-68 | `set_envs` names exactly the nine keys, each once, in its order |
| Defaults.WithDefaultsUnfold | lib/deploy.rb:58-68 | the fold is the nine `\|\|=` assignments in source order, with their defaults |
| Defaults.LookupAfterFill | lib/deploy.rb:58-68 | after filling, a key has its old value if it had one; otherwise it has its default if it is named; otherwise it is nil |
| Defaults.FillLeavesOtherKeys | lib/deploy.rb:58-68 | filling never touches a key it does not name |
| Defaults.FillAllNoop | lib/deploy.rb:58-68 | when every named key already has a value, filling changes nothing |
| Defaults.FillAllIdempotent | lib/deploy.rb:58-68 | filling twice is filling once |
| Defaults.FillAllReference | lib/deploy.rb:58-68 | the step-by-step fold equals the reference definition: nil values are filled in place, and missing keys are appended in pair order |
| Defaults.FillAllUnique | lib/deploy.rb:58-68 | filling keeps the keys unique |
| Defaults.MissingKeys | lib/deploy.rb:58-68 | the appended entries are exactly the named keys that were absent, in pair order |
| Defaults.FillAllOrder | lib/deploy.rb:58-68 | existing entries with values, and entries of unnamed keys, stay at their positions; the keys are the old keys followed by the absent named keys |
| Defaults.PatchedPlusMissing | lib/deploy.rb:58-68 | the reference definition keeps old positions and appends only the absent named keys |
| Defaults.WithDefaultsKeepsValues | lib/deploy.rb:58-68 | `set_envs` keeps every existing value, the empty string included |
| Defaults.WithDefaultsLeavesOtherKeys | lib/deploy.rb:58-68 | `set_envs` never changes, adds or removes a key outside the nine |
| Defaults.WithDefaultsDefinesAll | lib/deploy.rb:58-68 | afterwards each of the nine keys has a value: its old one, or else its default |
| Defaults.WithDefaultsOrder | lib/deploy.rb:58-68 | the parsed entries stay in place, and the absent keys among the nine are appended after them in `set_envs` order |
| Defaults.WithDefaultsIdempotent | lib/deploy.rb:58-68 | `set_envs` applied to its own output, with the same inputs, changes nothing |
| Defaults.WithDefaultsSecrets | lib/deploy.rb:86-96 | generated secrets are lower-case hex: 32 digits for the password and secret key base, 128 for the master key |
| Defaults.AsWrittenRaisesWithoutExecjs | lib/deploy.rb:67-72 | as written, `set_envs` raises NameError ("uninitialized constant Deploy::Disabled") exactly when EXECJS_RUNTIME has no value; otherwise it equals the corrected `set_envs` |
| Defaults.AsWrittenMessage | lib/deploy.rb:70-72 | the as-written failure carries the message "uninitialized constant Deploy::Disabled" |
| Defaults.CorrectedExecjsRuntime | lib/deploy.rb:67-72 | corrected, EXECJS_RUNTIME ends up holding its old value, or else "Disabled" |
| Validation.FindEmpty | lib/deploy.rb:20-22 | the check loop reports the first checked key whose value is exactly ''; it reports none exactly when no checked key holds '' |
| Validation.FirstEmptySpec | lib/deploy.rb:20-22 | the reported key is the first checked key holding ''; no key is reported exactly when none holds '' |
| Validation.ValidationPassesIff | lib/deploy.rb:20-22 | the check passes exactly when no entry of `@envs` holds ''; HOSTNAME absent or nil never raises |
| Validation.HostnameCheckRedundant | lib/deploy.rb:8-22 | appending HOSTNAME to the checked keys never changes the key reported |
| Validation.FirstEmptyAppend | lib/deploy.rb:20 | checking one more key at the end reports it only when no earlier key was reported |
| Validation.ValidationAfterDefaults | lib/deploy.rb:18-22 | with a non-empty project name, a non-empty Ruby version and well-formed secrets, the check after `set_envs` passes exactly when no parsed value is '' |
| Validation.NoEmptyDefaults | lib/deploy.rb:18-22 | filling with non-empty defaults neither adds nor removes an empty value |
| EnvFile.SplitJoin | lib/deploy.rb:26 | joining lines that contain no newline with "\n", then splitting at "\n", gives the lines back |
| EnvFile.JoinSplit | lib/deploy.rb:26 | splitting a text at "\n" and joining with "\n" gives the text back |
| EnvFile.RenderRoundTrip | lib/deploy.rb:24-26 | the `.env` text has one line per entry, and it reads back as the entries in map order, with nil written as empty, when no key holds '=' or a newline and no value holds a newline |
| EnvFile.RenderEndsWithLastLine | lib/deploy.rb:24-26 | the text ends with the last entry's line, with no trailing newline |
| EnvFile.RenderEmpty | lib/deploy.rb:24-26 | an empty map gives an empty file |
| Compose.NetworksFoldGet | lib/deploy.rb:108-110 | the networks fold maps exactly the listed names to an external network |
| Compose.NetworksFoldAppends | lib/deploy.rb:108-110 | with distinct new names, the fold appends one external network per name, in list order |
| Compose.ServiceNetworks | lib/deploy.rb:102-110 | the networks are web, postgres and doc_box, in that order, each external |
| Compose.ServiceNetworksGet | lib/deploy.rb:102-110 | the networks map looks up an external network exactly for the three services, and nil for every other name |
| Compose.WebServiceSpec | lib/deploy.rb:113-140 | `web`: its image, restart policy 'always', build context '.', exactly the RUBY_VERSION and NODE_VERSION build arguments, env file `.env`, labels, and the service list as its networks |
| Compose.ComposeFileSpec | lib/deploy.rb:106-143 | networks: exactly one external entry per service, in order; the only service is `web`; its networks equal the network keys; plus its env file, restart policy, image, build context and build arguments |
| Compose.LabelsSpec | lib/deploy.rb:126-138 | 11 labels: `traefik.enable=true` first and `traefik.docker.network=web` last; the nine between them contain the project name; the http and https rule labels both end in `=` and the same `Host` rule, whatever the project name; when the project name holds no '=', each splits at its first '=' into the router's rule name and that rule |
| Compose.LabelsNameProject | lib/deploy.rb:127-136 | labels 2 to 10 contain the project name |
| Compose.LabelsRuleSuffix | lib/deploy.rb:132-134 | for every project name, both router rule labels end in `=` followed by "Host(`hostname`)" |
| Compose.LabelsRules | lib/deploy.rb:132-134 | when the project name holds no '=', both router rule labels split at their first '=' into the router's rule name and "Host(`hostname`)" |
| Compose.LabelsExample | lib/deploy.rb:134 | for project "shop" at shop.example.com, the https rule is ``traefik.http.routers.shop-https.rule=Host(`shop.example.com`)`` |
| DeployDriver.Deploy.constructor | lib/deploy.rb:11-13 | a new object has the two constants, no memoised project name, and `@envs` unset (modelled as empty) |
| DeployDriver.Deploy.New | lib/deploy.rb:11-13 | `Deploy.new` fails with "Missing required ENV variables!" exactly when either constant is nil; otherwise it returns a fresh object; the error's message is that text |
| DeployDriver.Deploy.ProjectName | lib/deploy.rb:46-48 | `project_name` returns the directory's base name and memoises it |
| DeployDriver.Deploy.AssignDefault | lib/deploy.rb:62-67 | `@envs[k] \|\|= v` for a default that does not need `project_name` |
| DeployDriver.Deploy.AssignDerived | lib/deploy.rb:59-63 | `@envs[k] \|\|= f(project_name)`: `project_name` is called, and so memoised, only when the key is nil |
| DeployDriver.Deploy.SetEnvs | lib/deploy.rb:58-68 | `@envs` becomes `WithDefaults` of its old value; `project_name` is memoised exactly when one of the four defaults built from it is needed |
| DeployDriver.Deploy.Prepare | lib/deploy.rb:15-28 | `@envs` is the parsed map with defaults, filled by `set_envs` with `execjs_runtime` corrected to "Disabled". When some checked key holds '', it fails with "ENV <key> is empty!" for the first such key (the error and its message), and nothing is returned to write. Otherwise it returns the `.env` text of `@envs` and the compose document for the project name, hostname and versions |

## Left out

- `Dotenv.parse` (lib/deploy.rb:16) is a third-party parser. Its result is the input map of `Prepare`.
- The file reads (`.ruby-version`, `.nvmrc`, lib/deploy.rb:50-56) and `Dir.pwd` (lib/deploy.rb:47) are fields of `Defaults.Workspace`. `strip` happens inside the file read and is not modelled. Their read errors are not modelled either. `compose_file` re-reads the two version files (lib/deploy.rb:121-122) after `.env` is written (lib/deploy.rb:24), so a failed read there leaves `.env` written without `docker-compose.yml`; the model returns both files or neither.
- `File.binwrite` (lib/deploy.rb:24-27) is I/O. `Prepare` returns the contents instead.
- `SecureRandom.hex` (lib/deploy.rb:86-96) is random. Its three results are inputs, and `Defaults.SecretsWellFormed` constrains them to their length and lower-case hex digits.
- `to_yaml` (lib/deploy.rb:27) is a library serialiser. The document is modelled as datatypes, not as YAML text.
- `build` and `deploy` (lib/deploy.rb:30-42) only run shell commands through `system`. `SUPPORTED_TASKS` (lib/deploy.rb:9) only serves the command-line dispatch.
- The class-load `ENV.fetch` reads (lib/deploy.rb:6-7) are parameters of `Deploy.New`.
- Strings are sequences of characters. File encodings and binary writes are not modelled.
- `EnvFile.RenderRoundTrip`: the read-back holds only for keys without '=' or newlines and values without newlines. Other entries render the same way, but their lines do not read back one to one.
- `Compose.LabelsRules`: the split at the first '=' holds only for project names without '='. A project name holding '=' puts the first '=' inside the label's key, so the label is misparsed, as by Docker's own `key=value` label parsing; `Compose.LabelsRuleSuffix` states the `Host` rule suffix for every project name.
- `Compose.LabelsSpec`: its split clause carries the same '=' restriction as `Compose.LabelsRules`, for the same reason; its suffix clause holds for every project name.
- `DeployDriver.Deploy.SetEnvs`: the model evaluates `execjs_runtime` as the string "Disabled", not as the NameError the source raises (see Findings).
- `DeployDriver.Deploy.Prepare`: it uses the corrected `set_envs`. As written, `prepare` raises NameError at lib/deploy.rb:67 whenever EXECJS_RUNTIME is absent or nil, before the check runs; `Defaults.AsWrittenRaisesWithoutExecjs` states that case.

## Findings

| source | as written | input that shows it | evidently intended | confidence | as-written member | corrected member |
|---|---|---|---|---|---|---|
| lib/deploy.rb:70-72 | `execjs_runtime` evaluates the bare constant `Disabled`. Neither `Deploy` nor the top level defines it, so Ruby raises NameError ("uninitialized constant Deploy::Disabled"). | Any parsed dotenv map without an EXECJS_RUNTIME value, e.g. an empty one: `prepare` raises before validation, and no file is written | the string "Disabled", ExecJS's disabled runtime | not executed | Defaults.AsWrittenRaisesWithoutExecjs | Defaults.CorrectedExecjsRuntime |
