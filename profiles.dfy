/**
 * Profile resolution: from the working directory to the nearest enclosing
 * git repository, from the repository's name to an AWS profile, and the
 * cross-check of that profile's account id against the `account_id`
 * declared in the repository's `terragrunt.hcl`.
 *
 * The filesystem and environment are inputs: the `AWS_PROFILE` variable,
 * the working directory, the set of directories whose `.git` exists, the
 * parsed AWS config file and the lines of each repository's
 * `terragrunt.hcl`.
 */
module Profiles {
  import opened Wrappers
  import opened GoStrings
  import opened Ini

  /** An absolute, clean directory path as its components below `/`;
      `[]` is `/` itself. */
  type Path = seq<string>

  /** `filepath.Dir` on a clean absolute path. */
  function Parent(p: Path): Path {
    if p == [] then [] else p[..|p| - 1]
  }

  /** `filepath.Base` on a clean absolute path (`/` for the root). */
  function Base(p: Path): string {
    if p == [] then "/" else p[|p| - 1]
  }

  datatype ProfileError =
    | TerragruntMissing(rootDir: Path)          // the repository root has no terragrunt.hcl
    | AccountIdUndetermined(rootDir: Path)      // terragrunt.hcl declares no usable account id
    | AccountMismatch(accountId: string, rootDir: Path)
    | ConfigUnreadable                          // the AWS config file did not parse
    | ProfileNotFound(profile: string)
    | AccountIdKeyMissing(profile: string)      // the profile section has no sso_account_id
    | WorkingDirUnavailable
    | NotInRepository

  // -----------------------------------------------------------------------
  // Repository name to profile name

  /** The historical repositories whose name is not their profile's name. */
  const RepoExceptions: map<string, string> := map[
    "commerce-prod" := "commerce-prd",
    "hospitalitysolutions-prod" := "hospitalitysolutions-prd",
    "mlplat-prd" := "mlplatprd",
    "tripadvisor-hotels-ai" := "hotels-ai",
    "seceng-prod" := "seceng-prd"]

  /** `getProfileFromRepoName`: exactly the five exception names are
      renamed (exact, case-sensitive match); every other name is its own
      profile. */
  function ProfileFromRepoName(repo: string): (profile: string)
    ensures profile != repo <==>
      repo in {"commerce-prod", "hospitalitysolutions-prod", "mlplat-prd", "tripadvisor-hotels-ai", "seceng-prod"}
    ensures repo == "commerce-prod" ==> profile == "commerce-prd"
    ensures repo == "hospitalitysolutions-prod" ==> profile == "hospitalitysolutions-prd"
    ensures repo == "mlplat-prd" ==> profile == "mlplatprd"
    ensures repo == "tripadvisor-hotels-ai" ==> profile == "hotels-ai"
    ensures repo == "seceng-prod" ==> profile == "seceng-prd"
  {
    if repo in RepoExceptions then RepoExceptions[repo] else repo
  }

  // -----------------------------------------------------------------------
  // The account id declared in terragrunt.hcl

  /** A line whose first whitespace-separated field is `account_id` and
      which has at least three fields. */
  predicate DeclaresAccountId(line: string) {
    var f := Fields(line);
    |f| >= 3 && f[0] == "account_id"
  }

  /** The third field of a declaring line, with surrounding quotes cut. */
  function DeclaredValue(line: string): string
    requires DeclaresAccountId(line)
  {
    TrimChar(Fields(line)[2], '"')
  }

  /** The value of the first declaring line, or "" when no line declares;
      the value never starts or ends with a quote. */
  function DeclaredAccountId(lines: seq<string>): (id: string)
    ensures id == [] || (id[0] != '"' && id[|id| - 1] != '"')
  {
    if lines == [] then ""
    else if DeclaresAccountId(lines[0]) then DeclaredValue(lines[0])
    else DeclaredAccountId(lines[1..])
  }

  /** The first declaring line decides. */
  lemma {:induction false} DeclaredAccountIdFirst(lines: seq<string>, k: nat)
    requires k < |lines| && DeclaresAccountId(lines[k])
    requires forall j :: 0 <= j < k ==> !DeclaresAccountId(lines[j])
    ensures DeclaredAccountId(lines) == DeclaredValue(lines[k])
  {
    if k > 0 {
      forall j | 0 <= j < k - 1 ensures !DeclaresAccountId(lines[1..][j]) {
        assert lines[1..][j] == lines[j + 1];
      }
      assert lines[1..][k - 1] == lines[k];
      DeclaredAccountIdFirst(lines[1..], k - 1);
      assert !DeclaresAccountId(lines[0]);
    }
  }

  /** Without a declaring line the declared id is empty. */
  lemma {:induction false} DeclaredAccountIdNone(lines: seq<string>)
    requires forall j :: 0 <= j < |lines| ==> !DeclaresAccountId(lines[j])
    ensures DeclaredAccountId(lines) == ""
  {
    if lines != [] {
      DeclaredAccountIdNone(lines[1..]);
    }
  }

  /** Lines after the first declaring line are never consulted. */
  lemma {:induction false} DeclaredAccountIdIgnoresLater(read: seq<string>, rest: seq<string>)
    requires exists j :: 0 <= j < |read| && DeclaresAccountId(read[j])
    ensures DeclaredAccountId(read + rest) == DeclaredAccountId(read)
  {
    assert (read + rest)[0] == read[0];
    if !DeclaresAccountId(read[0]) {
      assert (read + rest)[1..] == read[1..] + rest;
      var j :| 0 <= j < |read| && DeclaresAccountId(read[j]);
      assert read[1..][j - 1] == read[j];
      DeclaredAccountIdIgnoresLater(read[1..], rest);
    }
  }

  /** What `validateAccountID` decides: the check passes exactly when the
      file exists and declares precisely `accountId`; a missing file, a
      missing declaration and a different id are three distinct errors,
      and a mismatch is reported, never corrected. */
  function AccountIdVerdict(accountId: string, rootDir: Path, terragrunt: Option<seq<string>>): (r: Outcome<ProfileError>)
    ensures r.Pass? <==> terragrunt.Some? && accountId != "" && DeclaredAccountId(terragrunt.value) == accountId
    ensures terragrunt.None? ==> r == Fail(TerragruntMissing(rootDir))
    ensures terragrunt.Some? && DeclaredAccountId(terragrunt.value) == "" ==>
      r == Fail(AccountIdUndetermined(rootDir))
    ensures r.Fail? && terragrunt.Some? && DeclaredAccountId(terragrunt.value) != "" ==>
      r.error == AccountMismatch(accountId, rootDir)
  {
    match terragrunt
    case None => Fail(TerragruntMissing(rootDir))
    case Some(lines) =>
      var declared := DeclaredAccountId(lines);
      if declared == "" then Fail(AccountIdUndetermined(rootDir))
      else if declared != accountId then Fail(AccountMismatch(accountId, rootDir))
      else Pass
  }

  /** A declared value made only of quotes trims to nothing, so the id
      counts as undetermined rather than as a mismatch. */
  lemma QuotesOnlyUndetermined(accountId: string, rootDir: Path, lines: seq<string>, k: nat)
    requires k < |lines| && DeclaresAccountId(lines[k])
    requires forall j :: 0 <= j < k ==> !DeclaresAccountId(lines[j])
    requires forall c :: 0 <= c < |Fields(lines[k])[2]| ==> Fields(lines[k])[2][c] == '"'
    ensures AccountIdVerdict(accountId, rootDir, Some(lines)) == Fail(AccountIdUndetermined(rootDir))
  {
    DeclaredAccountIdFirst(lines, k);
  }

  /** `validateAccountID`: scans the lines of terragrunt.hcl (None when it
      cannot be opened) and stops at the first declaring line. */
  method ValidateAccountId(accountId: string, rootDir: Path, terragrunt: Option<seq<string>>)
    returns (r: Outcome<ProfileError>)
    ensures r == AccountIdVerdict(accountId, rootDir, terragrunt)
  {
    if terragrunt.None? {
      return Fail(TerragruntMissing(rootDir));
    }
    var lines := terragrunt.value;
    var accountIdFromTerragrunt := "";
    var i := 0;
    while i < |lines|
      invariant 0 <= i <= |lines|
      invariant accountIdFromTerragrunt == ""
      invariant DeclaredAccountId(lines[i..]) == DeclaredAccountId(lines)
    {
      var lineFields := Fields(lines[i]);
      ghost var here := lines[i..];
      assert here[0] == lines[i] && here[1..] == lines[i + 1..];
      if |lineFields| < 3 || lineFields[0] != "account_id" {
        assert DeclaredAccountId(here) == DeclaredAccountId(lines[i + 1..]);
        i := i + 1;
        continue;
      }
      accountIdFromTerragrunt := TrimChar(lineFields[2], '"');
      assert DeclaresAccountId(lines[i]);
      assert accountIdFromTerragrunt == DeclaredValue(lines[i]);
      assert here != [] && DeclaresAccountId(here[0]);
      assert DeclaredAccountId(here) == DeclaredValue(here[0]);
      break;
    }
    assert accountIdFromTerragrunt == DeclaredAccountId(lines);
    if accountIdFromTerragrunt == "" {
      return Fail(AccountIdUndetermined(rootDir));
    }
    if accountIdFromTerragrunt != accountId {
      return Fail(AccountMismatch(accountId, rootDir));
    }
    return Pass;
  }

  // -----------------------------------------------------------------------
  // The profile check against the AWS config file

  function ProfileSection(profile: string): string {
    "profile " + profile
  }

  /** `validateProfile`: the config file (None when it does not parse) must
      hold section `profile <name>` with an `sso_account_id`; the result is
      then exactly the terragrunt cross-check of that id. */
  function ValidateProfile(profile: string, config: Option<seq<Section>>, rootDir: Path,
                           terragrunt: Option<seq<string>>): (r: Outcome<ProfileError>)
    ensures r.Pass? <==>
      && config.Some?
      && GetOption(config.value, ProfileSection(profile), "sso_account_id").Some?
      && AccountIdVerdict(GetOption(config.value, ProfileSection(profile), "sso_account_id").value,
                          rootDir, terragrunt).Pass?
    ensures config.None? ==> r == Fail(ConfigUnreadable)
    ensures config.Some? && ProfileSection(profile) !in Names(config.value) ==>
      r == Fail(ProfileNotFound(profile))
    ensures (&& config.Some? && ProfileSection(profile) in Names(config.value)
             && GetOption(config.value, ProfileSection(profile), "sso_account_id").None?) ==>
      r == Fail(AccountIdKeyMissing(profile))
    ensures config.Some? && GetOption(config.value, ProfileSection(profile), "sso_account_id").Some? ==>
      r == AccountIdVerdict(GetOption(config.value, ProfileSection(profile), "sso_account_id").value,
                            rootDir, terragrunt)
  {
    match config
    case None => Fail(ConfigUnreadable)
    case Some(secs) =>
      var section := ProfileSection(profile);
      if Find(secs, section).None? then Fail(ProfileNotFound(profile))
      else
        match GetOption(secs, section, "sso_account_id")
        case None => Fail(AccountIdKeyMissing(profile))
        case Some(accountId) => AccountIdVerdict(accountId, rootDir, terragrunt)
  }

  // -----------------------------------------------------------------------
  // The upward walk to the repository root

  /** The nearest directory, from `dir` upward, whose `.git` exists; `/` is
      never inspected unless the walk starts there. */
  function NearestRepo(dir: Path, gitDirs: set<Path>): Option<Path>
    decreases |dir|
  {
    if dir in gitDirs then Some(dir)
    else if |dir| <= 1 then None
    else NearestRepo(Parent(dir), gitDirs)
  }

  /** The walk finds the nearest inspected ancestor holding `.git`, and
      fails exactly when no inspected directory holds one. The inspected
      directories are `cwd` itself and its ancestors strictly below `/`. */
  lemma {:induction false} NearestRepoIsNearest(cwd: Path, gitDirs: set<Path>)
    ensures NearestRepo(cwd, gitDirs).Some? ==>
      var root := NearestRepo(cwd, gitDirs).value;
      && root in gitDirs && root <= cwd && (root == cwd || |root| >= 1)
      && forall k :: |root| < k <= |cwd| ==> cwd[..k] !in gitDirs
    ensures NearestRepo(cwd, gitDirs).None? <==>
      cwd !in gitDirs && forall k :: 1 <= k <= |cwd| ==> cwd[..k] !in gitDirs
    decreases |cwd|
  {
    assert cwd[..|cwd|] == cwd;
    if cwd !in gitDirs && |cwd| > 1 {
      var up := Parent(cwd);
      NearestRepoIsNearest(up, gitDirs);
      forall k | 1 <= k <= |up| ensures up[..k] == cwd[..k] { }
    }
  }

  const AwsProfile := "AWS_PROFILE"

  /** `GetProfile`: with `AWS_PROFILE` set (`env`), returns "" without
      looking at anything else; otherwise walks up from the working
      directory (None when it cannot be determined) to the nearest `.git`,
      maps the repository's base name to a profile and validates it. */
  method GetProfile(env: Option<string>, cwd: Option<Path>, gitDirs: set<Path>,
                    config: Option<seq<Section>>, terragruntFiles: map<Path, seq<string>>)
    returns (r: Result<string, ProfileError>)
    ensures env.Some? ==> r == Success("")
    ensures env.None? && cwd.None? ==> r == Failure(WorkingDirUnavailable)
    ensures env.None? && cwd.Some? && NearestRepo(cwd.value, gitDirs).None? ==> r == Failure(NotInRepository)
    ensures env.None? && cwd.Some? && NearestRepo(cwd.value, gitDirs).Some? ==>
      var root := NearestRepo(cwd.value, gitDirs).value;
      var profile := ProfileFromRepoName(Base(root));
      var terragrunt := if root in terragruntFiles then Some(terragruntFiles[root]) else None;
      match ValidateProfile(profile, config, root, terragrunt)
      case Pass => r == Success(profile)
      case Fail(e) => r == Failure(e)
  {
    if env.Some? {
      return Success("");
    }
    if cwd.None? {
      return Failure(WorkingDirUnavailable);
    }
    var dir := cwd.value;
    while dir !in gitDirs
      invariant NearestRepo(dir, gitDirs) == NearestRepo(cwd.value, gitDirs)
      decreases |dir|
    {
      dir := Parent(dir);
      if dir == [] {
        return Failure(NotInRepository);
      }
    }
    var repoName := Base(dir);
    var profile := ProfileFromRepoName(repoName);
    var terragrunt := if dir in terragruntFiles then Some(terragruntFiles[dir]) else None;
    var err := ValidateProfile(profile, config, dir, terragrunt);
    if err.Fail? {
      return Failure(err.error);
    }
    return Success(profile);
  }
}
