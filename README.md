# aws-sso-config, modelled in Dafny

`aws-sso-config` keeps a developer's `~/.aws/config` in step with the AWS
accounts their SSO login can reach, and picks the AWS profile that belongs to
the Git repository they are working in. This project models the decision
logic of that tool and proves what it promises:

- **Profile generation** (`generate`): every qualifying account (name starting
  `tripadvisor-`, `trip-` or `core-`) gets a section `profile <name>` with the
  five SSO settings, created when missing and overwritten when present. With
  `-cleanup`, sections whose `sso_account_id` belongs to a retired account are
  removed. The result goes to `<file>.new`, which is then renamed over the
  original file.
- **Profile resolution** (`GetProfile`): walk up from the working directory
  to the nearest `.git`. Map the repository name to a profile (five names are
  exceptions). Check that the profile exists in the AWS config and that its
  `sso_account_id` equals the `account_id` declared in the repository's
  `terragrunt.hcl`.
- **Token cache**: the first cached SSO token that is a `.json` file, decodes,
  is non-empty, has an expiry and has not expired. The device-authorization
  flow is the fallback.
- **Tool settings**: defaults, overlaying a settings file, `~` expansion of the
  config path, and validation of the four required fields.
- **`init` command**: format check, file-name derivation, refusal to overwrite,
  directory creation and the choice of example text.
- **Usage text** normalisation and **command registration** with duplicate
  detection.

Modules, one per source file, plus two library models:

| module | file | models |
|---|---|---|
| `Wrappers` | wrappers.dfy | `Option`, `Result` and `Outcome` |
| `GoStrings` | go_strings.dfy | the parts of Go's `strings` and `unicode.IsSpace` that the core uses |
| `Ini` | ini.dfy | the `go-configparser` object: an ordered list of named sections, changed in place |
| `Generate` | generate.dfy | command/generate/generate.go |
| `Profiles` | profiles.dfy | provider/aws/profiles.go |
| `TokenCache` | token_cache.dfy | provider/aws/config.go |
| `AppConfig` | app_config.dfy | pkg/config/config.go |
| `InitCommand` | init_command.dfy | command/initialize/initconfig.go |
| `Usage` | usage.dfy | command/flags/usage.go |
| `Registry` | registry.dfy | command/registry.go |

State is modelled as follows. The file system, the environment, the clock
and remote services are parameters. A file that could not be read or parsed
is `None`. A directory is a set of paths or a list of entries. The current
time is an integer in which 0 stands for Go's zero time. The account listing
is a sequence of pages. The device-authorization token is a value. Paths are
lists of components, and the empty list is `/`.

`GenerateAwsConfigFile` is an imperative method. It drives a `ConfigParser`
object through the same loops and calls as the Go code, and it is proved
equal to the function `Reconcile`. The paging loop, the loop over one page,
the body for one account and the cleanup loop are separate methods
(`UpsertPages`, `UpsertPage`, `UpsertAccount`, `RemoveRetired`), each proved
against its own part of `Reconcile`. Lemmas then prove the following. Running
`Reconcile` again on its own output changes nothing, with or without
cleanup. The account loop (`UpsertAll`) leaves unrelated sections alone and
sets each qualifying account's profile to the five values. Cleanup then
removes exactly the retired sections, so with cleanup on, a section that
the loop kept or wrote survives only if its `sso_account_id` is not a
retired id. Section names stay unique throughout.

## Model

| member | source | states |
|---|---|---|
| `Ini.Find` | command/generate/generate.go:122 | a section lookup fails exactly when no section has that name |
| `Ini.FindAt` | command/generate/generate.go:137 | in a file with unique section names, looking a section up by its own name returns that section's options |
| `Ini.FindAppend` | command/generate/generate.go:124 | in a concatenation the lookup answers from the first part that has the name; an appended section cannot shadow an existing one |
| `Ini.GetOption` | command/generate/generate.go:137-140 | a value is found exactly when the section exists and holds the option |
| `Ini.UpdateOptions` | command/generate/generate.go:127-131 | writing options keeps the number, order and names of the sections |
| `Ini.RemoveNamedAt` | command/generate/generate.go:142 | when names are unique, removing a section's name deletes that one section and keeps the rest in order |
| `Ini.RemoveNamedAbsent` | command/generate/generate.go:142 | removing an absent name changes nothing |
| `Ini.RemoveAtUnique` | command/generate/generate.go:142 | deleting one section of a file with unique names leaves the names unique |
| `Ini.ConfigParser.constructor` | command/generate/generate.go:95 | a parser holding the successfully parsed file |
| `Ini.ConfigParser.HasSection` | command/generate/generate.go:122 | true exactly when a section of that name exists |
| `Ini.ConfigParser.SectionNames` | command/generate/generate.go:136 | the names of the sections, one per section, in order |
| `Ini.ConfigParser.Get` | command/generate/generate.go:137-140 | a value exactly when the section exists and holds the option, and then it is that option's value; an error (None) otherwise |
| `Ini.ConfigParser.AddSection` | command/generate/generate.go:122-125 | an error exactly when the name exists; otherwise an empty section is appended and nothing else changes; names stay unique |
| `Ini.ConfigParser.Set` | command/generate/generate.go:127-131 | an error exactly when the section is missing; otherwise that one option of that section is written and nothing else changes |
| `Ini.ConfigParser.RemoveSection` | command/generate/generate.go:141-143 | an error exactly when the section is missing; otherwise exactly that section is removed |
| `Generate.Qualifies` | command/generate/generate.go:113 | an account qualifies exactly when its name starts with `tripadvisor-`, `trip-` or `core-` |
| `Generate.ProfileName` | command/generate/generate.go:117-118 | the profile name is the account name with a leading `trip-` cut, then a leading `tripadvisor-` cut |
| `Generate.SectionKey` | command/generate/generate.go:119 | the section of an account is `profile ` followed by its profile name |
| `Generate.Upsert` | command/generate/generate.go:121-131 | an existing section gets the options written over its own; an absent one is appended holding exactly them |
| `Generate.ApplyAccount` | command/generate/generate.go:112-131 | a qualifying account upserts its five settings into its own section; any other account changes nothing |
| `Generate.UpsertAll` | command/generate/generate.go:105-133 | the account loop: the accounts applied one after the other, in listing order |
| `Generate.Prune` | command/generate/generate.go:134-145 | the cleanup loop: retired sections dropped, the others kept in order; it never adds a section |
| `Generate.Reconcile` | command/generate/generate.go:105-145 | the account loop over all pages, followed by cleanup when the flag is set |
| `Generate.DeletedAccountsShape` | command/generate/generate.go:85-90 | the retired list holds 32 ids of twelve decimal digits each |
| `Generate.LastIdSomeTouches` | command/generate/generate.go:111-131 | when a section's account id is taken from the listing, some qualifying account maps to that section |
| `Generate.TouchesLastIdSome` | command/generate/generate.go:111-131 | any qualifying account that maps to a section makes that section take an id from the listing |
| `Generate.LastIdSomeIffTouches` | command/generate/generate.go:111-131 | an existing section gets a new account id exactly when some qualifying account maps to its name |
| `Generate.FindUpsertAll` | command/generate/generate.go:111-131 | after the account loop each section holds its original options overlaid with the five profile settings of the last account mapped to it; sections no account maps to are unchanged |
| `Generate.OverwriteProfile` | command/generate/generate.go:127-131 | setting a profile twice leaves only the second account's values |
| `Generate.UpsertAllNames` | command/generate/generate.go:122-125 | existing sections stay in place and every qualifying account's `profile <name>` section is present afterwards |
| `Generate.UpsertAllNamesStable` | command/generate/generate.go:122-125 | when every profile already exists, no section is added |
| `Generate.UpsertAllUnique` | command/generate/generate.go:122-125 | the account loop never creates a duplicate section |
| `Generate.SectionsDetermined` | command/generate/generate.go:105-133 | two files with unique names, the same name order and the same contents per name are equal |
| `Generate.UpsertAllIdempotent` | command/generate/generate.go:105-133 | running the account loop a second time with the same accounts changes nothing |
| `Generate.ApplyAccountKeepsOthers` | command/generate/generate.go:119-131 | one account touches only its own `profile <name>` section |
| `Generate.UpsertAllKeepsUnrelated` | command/generate/generate.go:105-133 | a section that no qualifying account maps to keeps its position and its contents |
| `Generate.UpsertAllProfileSettings` | command/generate/generate.go:127-131 | each qualifying account's section holds `sso_role_name` AdministratorAccess, `sso_region` us-east-1, `sso_start_url` https://tamg.awsapps.com/start and `region` us-east-1; its `sso_account_id` is that of the last account with the same profile name; other options survive |
| `Generate.ProfileOverlay` | command/generate/generate.go:127-131 | after the five writes the section holds the account id, `AdministratorAccess`, `us-east-1`, the start URL and `us-east-1`, and every other option it held |
| `Generate.QualifyingOnly` | command/generate/generate.go:113-115 | the filtered accounts all carry one of the three prefixes |
| `Generate.UpsertAllIgnoresUnqualified` | command/generate/generate.go:113-115 | accounts without a `tripadvisor-`, `trip-` or `core-` prefix have no effect |
| `Generate.ProfileNameCases` | command/generate/generate.go:117-119 | `trip-` and `tripadvisor-` are stripped once, in that order; `core-` names are kept whole; the section is `profile ` plus that name |
| `Generate.PruneMembers` | command/generate/generate.go:134-145 | a section survives cleanup exactly when it is not retired, that is when it has no `sso_account_id` or that id is not in the deleted-account list |
| `Generate.PruneAppend` | command/generate/generate.go:136-144 | cleanup decides each section independently, so cleaning a file part by part gives the same result |
| `Generate.PruneUnique` | command/generate/generate.go:134-145 | cleanup keeps names unique |
| `Generate.ReconcileCleanup` | command/generate/generate.go:105-145 | with cleanup no retired profile remains; without it no section is lost |
| `Generate.ReconcileUnique` | command/generate/generate.go:95-145 | the generated file has unique section names |
| `Generate.PruneKeepsClean` | command/generate/generate.go:134-145 | cleanup keeps a list with no retired section as it is |
| `Generate.PruneDropsRetired` | command/generate/generate.go:134-145 | cleanup empties a list whose sections are all retired |
| `Generate.RerunKeepsCleaned` | command/generate/generate.go:105-133 | rerunning the account loop over a cleaned result leaves each of its sections where and as it was |
| `Generate.AppendedSection` | command/generate/generate.go:121-131 | a section the account loop appends is new and holds exactly the five settings of the last account that targets it |
| `Generate.DroppedIdRetired` | command/generate/generate.go:134-145 | a targeted section missing after cleanup was dropped there, so the id the listing gives it is retired |
| `Generate.RerunAppendsRetired` | command/generate/generate.go:105-145 | a section the rerun appends to a cleaned result is retired again |
| `Generate.ReconcileIdempotent` | command/generate/generate.go:105-145 | running the whole reconciliation again with the same listing, flag and retired ids changes nothing |
| `Generate.UpdateOptionsTwice` | command/generate/generate.go:127-131 | consecutive writes to one section compose as one overlay |
| `Generate.FiveSets` | command/generate/generate.go:127-131 | the five `Set` calls together overlay the five profile settings |
| `Generate.FillAppended` | command/generate/generate.go:122-131 | filling a freshly added section gives a section with exactly the written options |
| `Generate.SetProfile` | command/generate/generate.go:121-131 | adding the section when missing and setting the five options creates or overwrites the profile, keeping names unique |
| `Generate.PruneStepUnique` | command/generate/generate.go:136-144 | part way through cleanup the file still has unique names |
| `Generate.PruneExtend` | command/generate/generate.go:136-144 | cleaning one more section appends it exactly when it is not retired |
| `Generate.PruneStepGet` | command/generate/generate.go:137-140 | during cleanup, reading `sso_account_id` of the current section returns that section's own value, or an error when it has none |
| `Generate.PruneStepRemove` | command/generate/generate.go:141-143 | removing a retired current section by name leaves exactly the sections the loop should hold next |
| `Generate.PruneStep` | command/generate/generate.go:136-144 | one iteration of the cleanup loop removes the current section exactly when it is retired and keeps the others |
| `Generate.UpsertAllAppend` | command/generate/generate.go:105-133 | applying the accounts of two consecutive runs is applying the first run and then the second |
| `Generate.FlattenSnoc` | command/generate/generate.go:105-111 | the accounts of the next page come after those of the pages already read |
| `Generate.UpsertAccount` | command/generate/generate.go:112-131 | a non-qualifying account changes nothing; a qualifying one creates or refreshes its `profile <name>` section; names stay unique |
| `Generate.UpsertPage` | command/generate/generate.go:111-132 | the accounts of one page are applied in order |
| `Generate.UpsertPages` | command/generate/generate.go:105-133 | the paging loop applies every account of every page in listing order |
| `Generate.RemoveRetired` | command/generate/generate.go:134-145 | the cleanup loop over the snapshot of section names leaves exactly the sections that are not retired, in order, with unique names |
| `Generate.GenerateAwsConfigFile` | command/generate/generate.go:92-153 | a file that does not parse is an error; otherwise the result is written to `<file>.new` and renamed over `<file>`, with content equal to `Reconcile` of the parsed file, the listed pages and the cleanup flag against the 32 retired ids |
| `Profiles.ProfileFromRepoName` | provider/aws/profiles.go:58-74 | the profile differs from the repository name exactly for the five listed names, each mapped to its listed profile; matching is exact and case-sensitive |
| `Profiles.DeclaredAccountId` | provider/aws/profiles.go:35-47 | the id is taken from the first declaring line with surrounding quotes cut, or is empty; it never starts or ends with a quote |
| `Profiles.DeclaredAccountIdFirst` | provider/aws/profiles.go:36-47 | the account id comes from the first line whose first field is `account_id` and that has at least three fields, taking its third field with surrounding `"` removed |
| `Profiles.DeclaredAccountIdNone` | provider/aws/profiles.go:36-50 | with no declaring line the account id is empty |
| `Profiles.DeclaredAccountIdIgnoresLater` | provider/aws/profiles.go:45-46 | once a declaring line is read, later lines cannot change the result |
| `Profiles.AccountIdVerdict` | provider/aws/profiles.go:19-56 | the check passes exactly when terragrunt.hcl exists and declares exactly the profile's id; a missing file is reported as such, an empty or absent declaration as an undetermined id, and a different non-empty id as a mismatch |
| `Profiles.QuotesOnlyUndetermined` | provider/aws/profiles.go:45-50 | a first declared value made only of quotes trims to nothing and is reported as an undetermined id |
| `Profiles.ValidateAccountId` | provider/aws/profiles.go:19-56 | the scanning loop, with its `continue` and `break`, decides exactly as `AccountIdVerdict` |
| `Profiles.ValidateProfile` | provider/aws/profiles.go:77-98 | passes exactly when the config parses, holds `profile <name>` with an `sso_account_id`, and that id passes the terragrunt check; an unparsable file, a missing section and a missing `sso_account_id` are each reported as such; otherwise the result is exactly the terragrunt check of that id |
| `Profiles.NearestRepo` | provider/aws/profiles.go:110-119 | the walk upward from the working directory to the first directory holding `.git`, stopping below `/` |
| `Profiles.NearestRepoIsNearest` | provider/aws/profiles.go:110-119 | the walk stops at the nearest inspected ancestor that holds `.git`; it fails exactly when none does; `/` is inspected only when the walk starts there |
| `Profiles.GetProfile` | provider/aws/profiles.go:100-127 | with `AWS_PROFILE` set it returns "" without error; an unknown working directory and a directory outside any repository are errors; otherwise it returns the repository's profile when it validates and the validation error when not |
| `TokenCache.Usable` | provider/aws/config.go:115-136 | an entry is usable when it is a `.json` file that decodes, with a non-empty token and a non-zero expiry the current time is not after |
| `TokenCache.FirstUsableToken` | provider/aws/config.go:114-141 | the token of the first usable entry in file-name order; a token found is never empty |
| `TokenCache.FirstUsableTokenIsFirst` | provider/aws/config.go:114-141 | a token comes from a usable entry (a `.json` file that decodes, with a non-empty token and a non-zero expiry that the current time is not after) with no usable entry before it; there is none exactly when no entry is usable |
| `TokenCache.UnusableEntryIgnored` | provider/aws/config.go:115-136 | an unusable entry has no effect on the result, wherever it sits |
| `TokenCache.ExpiringNowIsUsable` | provider/aws/config.go:134-136 | an entry that expires exactly now is still accepted |
| `TokenCache.GetCurrentToken` | provider/aws/config.go:100-142 | no cache directory gives no token; otherwise the loop returns the token of the first usable entry, or none |
| `TokenCache.GetToken` | provider/aws/config.go:144-151 | the cached token is used when there is one; only otherwise does the device flow run, and its token is returned |
| `AppConfig.Validate` | pkg/config/config.go:99-113 | passes exactly when the start URL, SSO region, default region and config file are non-empty; an empty start URL is always the error reported |
| `AppConfig.ValidateIsFirstMissing` | pkg/config/config.go:99-113 | the error is that of the first empty field, in the order start URL, SSO region, default region, config file |
| `AppConfig.ValidateEdgeCases` | pkg/config/config_test.go:398-419 | an all-empty config reports "SSO start URL is required"; a start URL of spaces passes; the SSO role is not required |
| `AppConfig.AwsConfigPath` | pkg/config/config.go:93 | the default AWS config path is non-empty and ends in `.aws/config`, under the home directory |
| `AppConfig.Defaults` | pkg/config/config.go:86-96 | the default start URL, `us-east-1` for both regions, `AdministratorAccess`, the home directory's `.aws/config`, backups on, dry run off |
| `AppConfig.Overlay` | pkg/config/config.go:62-66 | each setting the file gives wins over its default; the others keep the default |
| `AppConfig.ExpandConfigFile` | pkg/config/config.go:68-74 | the config path changes only when it starts with `~` and expansion succeeds |
| `AppConfig.Layered` | pkg/config/config.go:46-66 | the settings in force: defaults under the settings file under the `AWS_SSO_CONFIG_*` environment |
| `AppConfig.LayeredPrecedence` | pkg/config/config.go:46-66 | field by field, an environment value wins over the settings file, which wins over the default |
| `AppConfig.Load` | pkg/config/config.go:30-77 | with no explicit path, a settings file missing from the search path is not an error; an explicit path that does not exist is a reading error, and so is any other read failure; a file that cannot be parsed is a reading error; merged settings that do not fit the Config type are an unmarshaling error; otherwise the layered settings, with the config path expanded |
| `AppConfig.EnvironmentOnly` | pkg/config/config_test.go:24-70 | with no settings file, every value the environment gives is loaded, and the config path it does not give stays the default |
| `AppConfig.Default` | pkg/config/config.go:80-83 | nil exactly on a read or decode error; with neither a settings file nor any environment setting the result validates |
| `AppConfig.DefaultsValid` | pkg/config/config.go:80-96 | the defaults validate, and so does any overlay that blanks no required field |
| `InitCommand.TargetFile` | command/initialize/initconfig.go:56-59 | an explicit file name is never changed; the default name takes the extension of a non-yaml format |
| `InitCommand.DefaultFileFollowsFormat` | command/initialize/initconfig.go:56-59 | with the default name, the file is `aws-sso-config.<format>` for every accepted format |
| `InitCommand.DirPart` | command/initialize/initconfig.go:68 | the directory part is a prefix that ends in `/` (or is empty) and the rest has no `/` |
| `InitCommand.ParentDir` | command/initialize/initconfig.go:68-69 | a bare file name has parent `.`; otherwise the parent is `/` or a prefix of the path without a trailing `/` |
| `InitCommand.ContentFor` | command/initialize/initconfig.go:80-89 | the JSON example exactly for `json`, the TOML example exactly for `toml`, YAML otherwise |
| `InitCommand.ExitCode` | command/initialize/initconfig.go:44-102 | exit status 0 exactly on success, 1 on every failure |
| `InitCommand.Effects` | command/initialize/initconfig.go:49-95 | a rejected format or an existing file causes no file-system action |
| `InitCommand.CreateFile` | command/initialize/initconfig.go:67-95 | the directory is made only when the parent is not `.`; success needs that and the write; the example for the format is the last thing written |
| `InitCommand.Cmd.Run` | command/initialize/initconfig.go:44-102 | an unknown format (after lower-casing) fails before any file action; the file name is derived; an existing file fails with nothing written; a failed directory creation fails; success returns 0 with the example written to the derived name |
| `InitCommand.Cmd.constructor` | command/initialize/initconfig.go:36-42 | the flag defaults `aws-sso-config.yaml` and `yaml` |
| `InitCommand.EffectsOrder` | command/initialize/initconfig.go:62-95 | the file is written last, only when it did not exist, and only after its directory is created |
| `InitCommand.AnyCaseFormat` | command/initialize/initconfig.go:50-59 | a format in any mix of upper and lower case whose lower-casing is `yaml`, `json` or `toml` is accepted, and the default file is then named `aws-sso-config.` plus that lower-case format |
| `Usage.Usager.String` | command/flags/usage.go:23-30 | the text with surrounding white space trimmed |
| `Usage.TrimSpaceEndsClean` | command/flags/usage.go:25-29 | the blank line appended after the trimmed text is exactly what the final right-trim removes |
| `Usage.TrimNewlinesAfter` | command/flags/usage.go:25-29 | right-trimming newlines from a text that does not end in one, followed by newlines only, gives back the text |
| `Usage.Usage` | command/flags/usage.go:9-16 | the usage text trimmed, whatever the flags |
| `Usage.UsageNormalised` | command/flags/usage.go:9-30 | the result never ends in a newline, ignores the flags, and normalising it again changes nothing |
| `Usage.UsageTrimsSurroundings` | command/flags/usage_test.go:33-37 | leading blanks and trailing blanks and newlines are dropped and the inner text is kept |
| `Usage.PaddedTrim` | command/flags/usage_test.go:33-37 | in a text padded with two blanks before and two blanks and two newlines after, the trimmed part starts at 2 and ends 4 before the end, and is the inner text |
| `Registry.Registered` | command/registry.go:39-49 | the insertions in order, stopping at the first name already bound, which is one of the entries' names |
| `Registry.RegisteredKeeps` | command/registry.go:39-49 | registration never replaces or drops a binding already in the table |
| `Registry.RegisteredBindsAll` | command/registry.go:39-49 | when no duplicate stops it, the table's keys are the old keys plus every entry name, each bound to its command |
| `Registry.RegisteredNoDuplicate` | command/registry.go:42-44 | the duplicate check fires exactly when two entries share a name or an entry's name is already bound |
| `Registry.RegisteredSpec` | command/registry.go:39-49 | registration finishes exactly when the names are distinct and none is bound already; then the keys are the old keys plus the new names, each bound to its command; existing bindings are never replaced |
| `Registry.Registry.RegisterCommands` | command/registry.go:39-49 | the insertion loop ends in the table and the duplicate name given by `Registered` |
| `Registry.CommandsDistinct` | command/registry.go:26-34 | the four registered command names are pairwise different, so registration never panics |
| `Registry.CommandKeys` | command/registry.go:26-34 | the entry names are exactly `config`, `config write`, `generate` and `run` |
| `Registry.RegisteredCommands` | command/registry.go:24-37 | exactly the commands `config`, `config write`, `generate` and `run`, each bound to its own command |
| `GoStrings.TrimSpace` | command/flags/usage.go:25 | the trimmed text is empty or neither starts nor ends with white space |
| `GoStrings.TrimSpaceIsCore` | command/flags/usage.go:25 | `TrimSpace` returns a slice of its input, and only white space is cut on either side |
| `GoStrings.TrimSpaceOfTrimmed` | command/flags/usage.go:25 | a text with no white space at either end is left unchanged |
| `GoStrings.TrimSpaceIdempotent` | command/flags/usage.go:25 | trimming twice equals trimming once |

## Left out

- The device-authorization flow in `generateToken` (provider/aws/config.go:53-99), the OAuth 2.0 device grant of RFC 8628. It is only remote calls, a browser and standard input, so its token is a parameter.
- The AWS SDK: loading the SDK configuration, the SSO client and the account paginator. The pages are given. A page error is printed and then the nil page is dereferenced (command/generate/generate.go:106-109); that crash is not modelled.
- `go-configparser` internals: INI text parsing and writing (`SaveWithDelimiter`), the `DEFAULT` section fallback in `Get`, and the reserved `DEFAULT` name in `AddSection`. A parsed file is an ordered list of sections with unique names. Sections are visited in file order, whereas the library returns them sorted by name. The cleanup result does not depend on that order (`Generate.PruneMembers`).
- `os.Rename`, `os.Stat`, `os.Open` and `os.ReadDir`: their answers are parameters, and the save and rename appear only as the `Commit` returned.
- `showFileDiff`, the `-diff` flag and command/run/run.go: they only start external programs.
- Viper loading in pkg/config/config.go: search paths, environment-variable precedence and YAML/JSON/TOML decoding. The outcome of looking for and reading the settings file is a parameter, and the environment is a second parameter of typed settings; an environment value that does not decode into its field's type is not modelled, and an empty variable counts as unset, as Viper treats it by default. `homedir.Expand` is also a parameter. `WriteExample` writes a constant text.
- The example file texts of the `init` command are represented by the tags `YamlExample`, `JsonExample` and `TomlExample`.
- Flag parsing in `init` (a parse error returns 1) and the help and synopsis strings; `Run` starts from the parsed flag values.
- Logger output, `fmt.Println` progress messages and UI messages. `log.Fatal` is modelled as an error result.
- Time: `time.Now` and JSON timestamp parsing. Times are integers, and 0 is the zero time.
- `bufio.Scanner` details: the terragrunt file is given as its lines, so the 64 KiB line limit and the `\r` stripping are not modelled.
- `GoStrings.ToLower` lower-cases ASCII letters only; Go's `strings.ToLower` also folds other scripts. The formats it is compared with are ASCII.
- `InitCommand.ParentDir` models `filepath.Dir` up to trailing slashes; the cleaning of `.`, `..` and repeated slashes inside a path is not modelled.
- `AppConfig.AwsConfigPath` models `filepath.Join` up to trailing slashes of the home directory; other cleaning of the home path is not modelled.
- The subcommand dispatch and the `config`, `config list` and `config write` commands only print help or do nothing.
- The command factories in command/registry.go are represented by the kind of command they build. The panic on a duplicate is the returned name.
