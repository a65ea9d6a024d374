/**
 * The `generate` command's reconciliation of the AWS config file with the
 * SSO account listing: every account whose name carries an allowed prefix
 * gets a `profile <name>` section holding five SSO settings, and with
 * cleanup on, sections of retired accounts are removed.
 */
module Generate {
  import opened Wrappers
  import opened GoStrings
  import opened Ini

  /** One element of a ListAccounts page (a nil field reads as ""). */
  datatype Account = Account(accountId: string, accountName: string)

  const RoleName := "AdministratorAccess"
  const SsoRegion := "us-east-1"
  const StartUrl := "https://tamg.awsapps.com/start"
  const Region := "us-east-1"

  /** The account ids known to be retired (`getDeletedAccounts`). */
  const DeletedAccounts: seq<string> := [
    "682663373751", "214402454761", "888141291843", "645449977376", "238748435140",
    "838966304137", "470843223423", "488930975526", "873418971637", "871576525389",
    "315408011559", "542652408899", "500107894351", "372722424469", "482829957692",
    "913664604572", "308372660733", "575631896363", "587273070693", "646305171068",
    "916698063943", "094139108652", "880843368113", "609658169657", "652580916927",
    "305349583326", "055450967330", "041793920579", "768492706723", "593319960666",
    "986061530938", "662733315436"]

  /** The retired list holds 32 account ids, each twelve decimal digits. */
  lemma DeletedAccountsShape()
    ensures |DeletedAccounts| == 32
    ensures forall i :: 0 <= i < |DeletedAccounts| ==>
      |DeletedAccounts[i]| == 12 && forall c :: 0 <= c < 12 ==> '0' <= DeletedAccounts[i][c] <= '9'
  {
  }

  /** The allow-list: only these account-name prefixes produce a profile. */
  predicate Qualifies(accountName: string) {
    HasPrefix(accountName, "tripadvisor-") || HasPrefix(accountName, "trip-") || HasPrefix(accountName, "core-")
  }

  /** The profile name: a leading `trip-` is cut, then a leading `tripadvisor-`. */
  function ProfileName(accountName: string): string {
    TrimPrefix(TrimPrefix(accountName, "trip-"), "tripadvisor-")
  }

  function SectionKey(accountName: string): string {
    "profile " + ProfileName(accountName)
  }

  /** The five settings every generated profile carries. */
  function ProfileOptions(accountId: string): Options {
    map["sso_account_id" := accountId, "sso_role_name" := RoleName, "sso_region" := SsoRegion,
        "sso_start_url" := StartUrl, "region" := Region]
  }

  /** The section `key` gets `kv` written over its options; it is appended
      (holding exactly `kv`) when absent. */
  function Upsert(secs: seq<Section>, key: string, kv: Options): seq<Section> {
    if key in Names(secs) then UpdateOptions(secs, key, kv) else secs + [Section(key, kv)]
  }

  /** The effect of one account on the section list. */
  function ApplyAccount(secs: seq<Section>, a: Account): seq<Section> {
    if Qualifies(a.accountName) then Upsert(secs, SectionKey(a.accountName), ProfileOptions(a.accountId))
    else secs
  }

  /** The accounts of all pages, in listing order. */
  function Flatten(pages: seq<seq<Account>>): (accts: seq<Account>)
    decreases |pages|
  {
    if pages == [] then [] else Flatten(pages[..|pages| - 1]) + pages[|pages| - 1]
  }

  /** The upsert phase: the accounts applied one after the other. */
  function UpsertAll(secs: seq<Section>, accts: seq<Account>): seq<Section>
    decreases |accts|
  {
    if accts == [] then secs
    else ApplyAccount(UpsertAll(secs, accts[..|accts| - 1]), accts[|accts| - 1])
  }

  /** A section belonging to a retired account. */
  predicate Retired(s: Section, deleted: seq<string>) {
    "sso_account_id" in s.options && s.options["sso_account_id"] in deleted
  }

  /** The cleanup phase: the sections of retired accounts dropped, the rest kept in order. */
  function Prune(secs: seq<Section>, deleted: seq<string>): (r: seq<Section>)
    ensures |r| <= |secs|
  {
    if secs == [] then []
    else (if Retired(secs[0], deleted) then [] else [secs[0]]) + Prune(secs[1..], deleted)
  }

  /** The whole reconciliation of a parsed file with the listing. */
  function Reconcile(secs: seq<Section>, pages: seq<seq<Account>>, cleanup: bool, deleted: seq<string>): seq<Section> {
    var upserted := UpsertAll(secs, Flatten(pages));
    if cleanup then Prune(upserted, deleted) else upserted
  }

  // ---------------------------------------------------------------------
  // Lookup after the upsert phase

  /** The options a section starts from before an upsert: its own, or none. */
  function BaseOptions(secs: seq<Section>, key: string): Options {
    match Find(secs, key)
    case Some(opts) => opts
    case None => map[]
  }

  /** Account `a` qualifies and its profile section is `key`. */
  predicate Targets(a: Account, key: string) {
    Qualifies(a.accountName) && SectionKey(a.accountName) == key
  }

  /** The id of the last qualifying account that targets section `key`. */
  function LastId(accts: seq<Account>, key: string): Option<string>
    decreases |accts|
  {
    if accts == [] then None
    else
      var a := accts[|accts| - 1];
      if Targets(a, key) then Some(a.accountId)
      else LastId(accts[..|accts| - 1], key)
  }

  /** Some qualifying account of `accts` targets section `key`. */
  predicate Touches(accts: seq<Account>, key: string) {
    exists j :: 0 <= j < |accts| && Targets(accts[j], key)
  }

  /** A found id comes from an account that targets the section. */
  lemma {:induction false} LastIdSomeTouches(accts: seq<Account>, key: string)
    requires LastId(accts, key).Some?
    ensures exists j :: 0 <= j < |accts| && Targets(accts[j], key)
    decreases |accts|
  {
    var n := |accts| - 1;
    if !Targets(accts[n], key) {
      LastIdSomeTouches(accts[..n], key);
      var j :| 0 <= j < n && Targets(accts[..n][j], key);
      assert accts[j] == accts[..n][j];
    }
  }

  /** An account that targets the section makes the lookup find an id. */
  lemma {:induction false} TouchesLastIdSome(accts: seq<Account>, key: string, j: nat)
    requires j < |accts| && Targets(accts[j], key)
    ensures LastId(accts, key).Some?
    decreases |accts|
  {
    var n := |accts| - 1;
    if j < n {
      var init := accts[..n];
      assert init[j] == accts[j];
      TouchesLastIdSome(init, key, j);
      assert LastId(accts, key).None? ==> LastId(accts, key) == LastId(init, key);
    }
  }

  lemma LastIdSomeIffTouches(accts: seq<Account>, key: string)
    ensures LastId(accts, key).Some? <==> Touches(accts, key)
  {
    if LastId(accts, key).Some? {
      LastIdSomeTouches(accts, key);
    }
    if Touches(accts, key) {
      var j :| 0 <= j < |accts| && Targets(accts[j], key);
      TouchesLastIdSome(accts, key, j);
    }
  }

  /** Looking up a section after rewriting the options of `name`. */
  lemma {:induction false} FindUpdateOptions(secs: seq<Section>, name: string, kv: Options, key: string)
    ensures Find(UpdateOptions(secs, name, kv), key)
      == if key == name && Find(secs, key).Some? then Some(Find(secs, key).value + kv) else Find(secs, key)
  {
    if secs != [] {
      assert UpdateOptions(secs, name, kv)[1..] == UpdateOptions(secs[1..], name, kv);
      FindUpdateOptions(secs[1..], name, kv, key);
    }
  }

  /** Looking up a section after one account: only its own section changes,
      and that one gains the five settings over what it held. */
  lemma FindApplyAccount(secs: seq<Section>, a: Account, key: string)
    ensures Find(ApplyAccount(secs, a), key)
      == if Targets(a, key)
         then Some(BaseOptions(secs, key) + ProfileOptions(a.accountId))
         else Find(secs, key)
  {
    if Qualifies(a.accountName) {
      var k := SectionKey(a.accountName);
      var kv := ProfileOptions(a.accountId);
      if k in Names(secs) {
        FindUpdateOptions(secs, k, kv, key);
      } else {
        FindAppend(secs, [Section(k, kv)], key);
        assert Names([Section(k, kv)]) == [k];
        assert map[] + kv == kv;
      }
    }
  }

  /** Writing the five settings twice is writing them once, whatever the ids. */
  lemma OverwriteProfile(base: Options, id0: string, id1: string)
    ensures (base + ProfileOptions(id0)) + ProfileOptions(id1) == base + ProfileOptions(id1)
  {
  }

  /** Each section after the upsert phase: untouched sections keep their
      options; a touched one holds what it had plus the five settings of
      the LAST account that targets it. */
  lemma {:induction false} FindUpsertAll(secs: seq<Section>, accts: seq<Account>, key: string)
    ensures Find(UpsertAll(secs, accts), key)
      == match LastId(accts, key)
         case None => Find(secs, key)
         case Some(id) => Some(BaseOptions(secs, key) + ProfileOptions(id))
    decreases |accts|
  {
    if accts != [] {
      var n := |accts| - 1;
      var a := accts[n];
      FindUpsertAll(secs, accts[..n], key);
      FindApplyAccount(UpsertAll(secs, accts[..n]), a, key);
      if Targets(a, key) {
        match LastId(accts[..n], key)
        case None =>
        case Some(id0) => OverwriteProfile(BaseOptions(secs, key), id0, a.accountId);
      }
    }
  }

  // ---------------------------------------------------------------------
  // Section names and positions after the upsert phase

  /** One account keeps every existing section at its position and appends
      its own section at the end only when that section is absent. */
  lemma ApplyAccountNames(secs: seq<Section>, a: Account)
    ensures Names(secs) <= Names(ApplyAccount(secs, a))
    ensures Qualifies(a.accountName) ==> SectionKey(a.accountName) in Names(ApplyAccount(secs, a))
    ensures Names(ApplyAccount(secs, a))
      == if Qualifies(a.accountName) && SectionKey(a.accountName) !in Names(secs)
         then Names(secs) + [SectionKey(a.accountName)]
         else Names(secs)
  {
    if Qualifies(a.accountName) && SectionKey(a.accountName) !in Names(secs) {
      var r := ApplyAccount(secs, a);
      assert Names(r) == Names(secs) + [SectionKey(a.accountName)];
    }
  }

  /** The upsert phase keeps every existing section name at its position and
      leaves a section for every qualifying account. */
  lemma {:induction false} UpsertAllNames(secs: seq<Section>, accts: seq<Account>)
    ensures Names(secs) <= Names(UpsertAll(secs, accts))
    ensures forall j :: 0 <= j < |accts| && Qualifies(accts[j].accountName) ==>
      SectionKey(accts[j].accountName) in Names(UpsertAll(secs, accts))
    decreases |accts|
  {
    if accts != [] {
      var n := |accts| - 1;
      var prev := UpsertAll(secs, accts[..n]);
      var r := UpsertAll(secs, accts);
      assert r == ApplyAccount(prev, accts[n]);
      UpsertAllNames(secs, accts[..n]);
      ApplyAccountNames(prev, accts[n]);
      PrefixTrans(Names(secs), Names(prev), Names(r));
      forall j | 0 <= j < |accts| && Qualifies(accts[j].accountName)
        ensures SectionKey(accts[j].accountName) in Names(r)
      {
        if j < n {
          assert accts[..n][j] == accts[j];
          PrefixMember(Names(prev), Names(r), SectionKey(accts[j].accountName));
        }
      }
    }
  }

  lemma PrefixTrans(a: seq<string>, b: seq<string>, c: seq<string>)
    requires a <= b && b <= c
    ensures a <= c
  {
    assert c[..|a|] == b[..|a|];
  }

  lemma PrefixMember(a: seq<string>, b: seq<string>, x: string)
    requires a <= b && x in a
    ensures x in b
  {
    var i :| 0 <= i < |a| && a[i] == x;
    assert b[i] == x;
  }

  /** When every qualifying account already has its section, the upsert
      phase adds no section and moves none. */
  lemma {:induction false} UpsertAllNamesStable(secs: seq<Section>, accts: seq<Account>)
    requires forall j :: 0 <= j < |accts| && Qualifies(accts[j].accountName) ==>
      SectionKey(accts[j].accountName) in Names(secs)
    ensures Names(UpsertAll(secs, accts)) == Names(secs)
    decreases |accts|
  {
    if accts != [] {
      var n := |accts| - 1;
      forall j | 0 <= j < n && Qualifies(accts[..n][j].accountName)
        ensures SectionKey(accts[..n][j].accountName) in Names(secs)
      {
        assert accts[..n][j] == accts[j];
      }
      UpsertAllNamesStable(secs, accts[..n]);
      ApplyAccountNames(UpsertAll(secs, accts[..n]), accts[n]);
    }
  }

  /** The upsert phase keeps section names unique. */
  lemma {:induction false} UpsertAllUnique(secs: seq<Section>, accts: seq<Account>)
    requires UniqueNames(secs)
    ensures UniqueNames(UpsertAll(secs, accts))
    decreases |accts|
  {
    if accts != [] {
      var n := |accts| - 1;
      var prev := UpsertAll(secs, accts[..n]);
      UpsertAllUnique(secs, accts[..n]);
      ApplyAccountNames(prev, accts[n]);
      var r := ApplyAccount(prev, accts[n]);
      forall i, j | 0 <= i < j < |r| ensures r[i].name != r[j].name {
        assert Names(r)[i] == r[i].name && Names(r)[j] == r[j].name;
      }
    }
  }

  /** Two section lists with unique names, the same names in the same order
      and the same options under every name are equal. */
  lemma SectionsDetermined(t: seq<Section>, u: seq<Section>)
    requires UniqueNames(t) && UniqueNames(u) && Names(t) == Names(u)
    requires forall key :: Find(t, key) == Find(u, key)
    ensures t == u
  {
    forall i | 0 <= i < |t| ensures t[i] == u[i] {
      assert Names(t)[i] == Names(u)[i];
      FindAt(t, i);
      FindAt(u, i);
    }
  }

  // ---------------------------------------------------------------------
  // Properties of the upsert phase

  /** Running the upsert phase a second time over the same listing changes
      nothing. */
  lemma UpsertAllIdempotent(secs: seq<Section>, accts: seq<Account>)
    requires UniqueNames(secs)
    ensures UpsertAll(UpsertAll(secs, accts), accts) == UpsertAll(secs, accts)
  {
    var once := UpsertAll(secs, accts);
    var twice := UpsertAll(once, accts);
    UpsertAllUnique(secs, accts);
    UpsertAllUnique(once, accts);
    UpsertAllNames(secs, accts);
    UpsertAllNamesStable(once, accts);
    forall key ensures Find(twice, key) == Find(once, key) {
      FindUpsertAll(once, accts, key);
      FindUpsertAll(secs, accts, key);
      match LastId(accts, key)
      case None =>
      case Some(id) => OverwriteProfile(BaseOptions(secs, key), id, id);
    }
    SectionsDetermined(twice, once);
  }

  /** One account leaves every section other than its own where and as it was. */
  lemma ApplyAccountKeepsOthers(secs: seq<Section>, a: Account, i: nat)
    requires i < |secs|
    requires !Targets(a, secs[i].name)
    ensures i < |ApplyAccount(secs, a)| && ApplyAccount(secs, a)[i] == secs[i]
  {
  }

  /** Sections that no qualifying account targets come out of the upsert
      phase unchanged and at the same position. */
  lemma {:induction false} UpsertAllKeepsUnrelated(secs: seq<Section>, accts: seq<Account>, i: nat)
    requires i < |secs| && !Touches(accts, secs[i].name)
    ensures i < |UpsertAll(secs, accts)| && UpsertAll(secs, accts)[i] == secs[i]
    decreases |accts|
  {
    if accts != [] {
      var n := |accts| - 1;
      assert !Touches(accts[..n], secs[i].name);
      UpsertAllKeepsUnrelated(secs, accts[..n], i);
      assert !Targets(accts[n], secs[i].name);
      ApplyAccountKeepsOthers(UpsertAll(secs, accts[..n]), accts[n], i);
    }
  }

  /** The option names the reconciler writes. */
  const ProfileKeys: set<string> := {"sso_account_id", "sso_role_name", "sso_region", "sso_start_url", "region"}

  /** After the upsert phase, the section of every qualifying account holds
      the five settings, with the id of the last account that maps to it;
      options it held under other names survive. */
  lemma UpsertAllProfileSettings(secs: seq<Section>, accts: seq<Account>, j: nat)
    requires j < |accts| && Qualifies(accts[j].accountName)
    ensures var key, r := SectionKey(accts[j].accountName), UpsertAll(secs, accts);
      && LastId(accts, key).Some?
      && GetOption(r, key, "sso_account_id") == LastId(accts, key)
      && GetOption(r, key, "sso_role_name") == Some("AdministratorAccess")
      && GetOption(r, key, "sso_region") == Some("us-east-1")
      && GetOption(r, key, "sso_start_url") == Some("https://tamg.awsapps.com/start")
      && GetOption(r, key, "region") == Some("us-east-1")
      && (forall o :: o in BaseOptions(secs, key) && o !in ProfileKeys ==>
            GetOption(r, key, o) == Some(BaseOptions(secs, key)[o]))
  {
    var key := SectionKey(accts[j].accountName);
    var r := UpsertAll(secs, accts);
    assert Touches(accts, key) by {
      assert Targets(accts[j], key);
    }
    LastIdSomeIffTouches(accts, key);
    var id := LastId(accts, key).value;
    FindUpsertAll(secs, accts, key);
    assert Find(r, key) == Some(BaseOptions(secs, key) + ProfileOptions(id));
    ProfileOverlay(BaseOptions(secs, key), id);
  }

  /** Writing the five settings over a section's options: the five values,
      and every other option unchanged. */
  lemma ProfileOverlay(base: Options, id: string)
    ensures var opts := base + ProfileOptions(id);
      && opts["sso_account_id"] == id
      && opts["sso_role_name"] == "AdministratorAccess"
      && opts["sso_region"] == "us-east-1"
      && opts["sso_start_url"] == "https://tamg.awsapps.com/start"
      && opts["region"] == "us-east-1"
      && forall o :: o in base && o !in ProfileKeys ==> o in opts && opts[o] == base[o]
  {
    assert ProfileOptions(id).Keys == ProfileKeys;
  }

  /** Accounts outside the allow-list have no effect at all: the upsert
      phase over the listing equals the upsert phase over its qualifying
      accounts. */
  function QualifyingOnly(accts: seq<Account>): (q: seq<Account>)
    ensures forall a :: a in q ==> Qualifies(a.accountName)
    decreases |accts|
  {
    if accts == [] then []
    else
      var n := |accts| - 1;
      QualifyingOnly(accts[..n]) + (if Qualifies(accts[n].accountName) then [accts[n]] else [])
  }

  lemma {:induction false} UpsertAllIgnoresUnqualified(secs: seq<Section>, accts: seq<Account>)
    ensures UpsertAll(secs, accts) == UpsertAll(secs, QualifyingOnly(accts))
    decreases |accts|
  {
    if accts != [] {
      var n := |accts| - 1;
      var q := QualifyingOnly(accts[..n]);
      UpsertAllIgnoresUnqualified(secs, accts[..n]);
      if Qualifies(accts[n].accountName) {
        assert (q + [accts[n]])[..|q|] == q;
      } else {
        assert q + [] == q;
      }
    }
  }

  /** The profile name of each allowed prefix. */
  lemma ProfileNameCases(accountName: string)
    ensures HasPrefix(accountName, "trip-") ==>
      ProfileName(accountName) == TrimPrefix(accountName[5..], "tripadvisor-")
    ensures HasPrefix(accountName, "tripadvisor-") ==> ProfileName(accountName) == accountName[12..]
    ensures HasPrefix(accountName, "core-") ==> ProfileName(accountName) == accountName
    ensures SectionKey(accountName) == "profile " + ProfileName(accountName)
  {
    if HasPrefix(accountName, "tripadvisor-") {
      assert accountName[4] == 'a';
      assert !HasPrefix(accountName, "trip-");
    }
    if HasPrefix(accountName, "core-") {
      assert accountName[0] == 'c';
      assert !HasPrefix(accountName, "trip-") && !HasPrefix(accountName, "tripadvisor-");
    }
  }

  // ---------------------------------------------------------------------
  // The cleanup phase

  /** A section survives cleanup exactly when it was there and is not
      retired; in particular every section without `sso_account_id` is kept. */
  lemma {:induction false} PruneMembers(secs: seq<Section>, deleted: seq<string>)
    ensures forall s :: s in Prune(secs, deleted) <==> s in secs && !Retired(s, deleted)
  {
    if secs != [] {
      PruneMembers(secs[1..], deleted);
      assert secs == [secs[0]] + secs[1..];
    }
  }

  lemma {:induction false} PruneAppend(a: seq<Section>, b: seq<Section>, deleted: seq<string>)
    ensures Prune(a + b, deleted) == Prune(a, deleted) + Prune(b, deleted)
  {
    if a == [] {
      assert a + b == b;
    } else {
      assert (a + b)[1..] == a[1..] + b;
      PruneAppend(a[1..], b, deleted);
    }
  }

  lemma {:induction false} PruneUnique(secs: seq<Section>, deleted: seq<string>)
    requires UniqueNames(secs)
    ensures UniqueNames(Prune(secs, deleted))
  {
    if secs != [] {
      var rest := Prune(secs[1..], deleted);
      PruneUnique(secs[1..], deleted);
      PruneMembers(secs[1..], deleted);
      if !Retired(secs[0], deleted) {
        var r := [secs[0]] + rest;
        forall i, j | 0 <= i < j < |r| ensures r[i].name != r[j].name {
          if i == 0 {
            assert r[j] in rest;
            var k :| 0 <= k < |secs[1..]| && secs[1..][k] == r[j];
            assert secs[k + 1] == r[j];
          } else {
            assert r[i] == rest[i - 1] && r[j] == rest[j - 1];
          }
        }
      }
    }
  }

  /** With cleanup on, no section of a retired account remains; with cleanup
      off, every section of the file is still there. */
  lemma ReconcileCleanup(secs: seq<Section>, pages: seq<seq<Account>>, cleanup: bool, deleted: seq<string>)
    ensures cleanup ==> forall s :: s in Reconcile(secs, pages, cleanup, deleted) ==> !Retired(s, deleted)
    ensures !cleanup ==> Names(secs) <= Names(Reconcile(secs, pages, cleanup, deleted))
  {
    PruneMembers(UpsertAll(secs, Flatten(pages)), deleted);
    UpsertAllNames(secs, Flatten(pages));
  }

  /** Reconciliation keeps section names unique. */
  lemma ReconcileUnique(secs: seq<Section>, pages: seq<seq<Account>>, cleanup: bool, deleted: seq<string>)
    requires UniqueNames(secs)
    ensures UniqueNames(Reconcile(secs, pages, cleanup, deleted))
  {
    UpsertAllUnique(secs, Flatten(pages));
    PruneUnique(UpsertAll(secs, Flatten(pages)), deleted);
  }

  /** Cleanup keeps a list in which no section is retired. */
  lemma {:induction false} PruneKeepsClean(secs: seq<Section>, deleted: seq<string>)
    requires forall i :: 0 <= i < |secs| ==> !Retired(secs[i], deleted)
    ensures Prune(secs, deleted) == secs
  {
    if secs != [] {
      assert !Retired(secs[0], deleted);
      PruneKeepsClean(secs[1..], deleted);
    }
  }

  /** Cleanup empties a list in which every section is retired. */
  lemma {:induction false} PruneDropsRetired(secs: seq<Section>, deleted: seq<string>)
    requires forall i :: 0 <= i < |secs| ==> Retired(secs[i], deleted)
    ensures Prune(secs, deleted) == []
  {
    if secs != [] {
      assert Retired(secs[0], deleted);
      PruneDropsRetired(secs[1..], deleted);
    }
  }

  /** A second upsert phase over a cleaned result leaves each of its
      sections where and as it was: the section already holds the five
      settings of the last account that targets it. */
  lemma RerunKeepsCleaned(secs: seq<Section>, accts: seq<Account>, deleted: seq<string>, i: nat)
    requires UniqueNames(secs)
    requires i < |Prune(UpsertAll(secs, accts), deleted)|
    ensures var p := Prune(UpsertAll(secs, accts), deleted);
      i < |UpsertAll(p, accts)| && UpsertAll(p, accts)[i] == p[i]
  {
    var u := UpsertAll(secs, accts);
    var p := Prune(u, deleted);
    var r := UpsertAll(p, accts);
    var key := p[i].name;
    UpsertAllUnique(secs, accts);
    PruneUnique(u, deleted);
    UpsertAllUnique(p, accts);
    UpsertAllNames(p, accts);
    assert Names(r)[i] == Names(p)[i];
    PruneMembers(u, deleted);
    assert p[i] in u;
    var k :| 0 <= k < |u| && u[k] == p[i];
    FindAt(u, k);
    FindAt(p, i);
    FindAt(r, i);
    FindUpsertAll(secs, accts, key);
    FindUpsertAll(p, accts, key);
    match LastId(accts, key)
    case None =>
    case Some(id) => OverwriteProfile(BaseOptions(secs, key), id, id);
  }

  /** A section that the upsert phase appends to a list with unique names
      is new, and holds exactly the five settings of the last account that
      targets it. */
  lemma AppendedSection(p: seq<Section>, accts: seq<Account>, t: nat)
    requires UniqueNames(p) && |p| <= t < |UpsertAll(p, accts)|
    ensures var key := UpsertAll(p, accts)[t].name;
      && key !in Names(p)
      && LastId(accts, key).Some?
      && UpsertAll(p, accts)[t].options == ProfileOptions(LastId(accts, key).value)
  {
    var r := UpsertAll(p, accts);
    var key := r[t].name;
    UpsertAllUnique(p, accts);
    UpsertAllNames(p, accts);
    assert key !in Names(p) by {
      forall i | 0 <= i < |p| ensures Names(p)[i] != key {
        assert Names(p)[i] == Names(r)[i] == r[i].name;
      }
    }
    FindAt(r, t);
    FindUpsertAll(p, accts, key);
  }

  /** A targeted section missing after cleanup was dropped there, so the id
      the listing gives it is retired. */
  lemma DroppedIdRetired(secs: seq<Section>, accts: seq<Account>, deleted: seq<string>, key: string)
    requires UniqueNames(secs)
    requires key !in Names(Prune(UpsertAll(secs, accts), deleted))
    requires LastId(accts, key).Some?
    ensures LastId(accts, key).value in deleted
  {
    var u := UpsertAll(secs, accts);
    var p := Prune(u, deleted);
    var id := LastId(accts, key).value;
    UpsertAllUnique(secs, accts);
    FindUpsertAll(secs, accts, key);
    var k :| 0 <= k < |u| && Names(u)[k] == key;
    FindAt(u, k);
    assert u[k].options == BaseOptions(secs, key) + ProfileOptions(id);
    ProfileOverlay(BaseOptions(secs, key), id);
    assert u[k] !in p by {
      forall i | 0 <= i < |p| ensures p[i] != u[k] {
        assert Names(p)[i] != key;
      }
    }
    PruneMembers(u, deleted);
    assert Retired(u[k], deleted);
  }

  /** A section that a second upsert phase appends to a cleaned result is
      retired: it was dropped by cleanup, and the rerun gives it the same id. */
  lemma RerunAppendsRetired(secs: seq<Section>, accts: seq<Account>, deleted: seq<string>, t: nat)
    requires UniqueNames(secs)
    requires var p := Prune(UpsertAll(secs, accts), deleted);
      |p| <= t < |UpsertAll(p, accts)|
    ensures Retired(UpsertAll(Prune(UpsertAll(secs, accts), deleted), accts)[t], deleted)
  {
    var p := Prune(UpsertAll(secs, accts), deleted);
    UpsertAllUnique(secs, accts);
    PruneUnique(UpsertAll(secs, accts), deleted);
    AppendedSection(p, accts, t);
    DroppedIdRetired(secs, accts, deleted, UpsertAll(p, accts)[t].name);
  }

  /** Running the whole reconciliation again with the same listing, the
      same flag and the same retired ids changes nothing. */
  lemma ReconcileIdempotent(secs: seq<Section>, pages: seq<seq<Account>>, cleanup: bool, deleted: seq<string>)
    requires UniqueNames(secs)
    ensures Reconcile(Reconcile(secs, pages, cleanup, deleted), pages, cleanup, deleted)
      == Reconcile(secs, pages, cleanup, deleted)
  {
    var accts := Flatten(pages);
    if !cleanup {
      UpsertAllIdempotent(secs, accts);
    } else {
      var p := Prune(UpsertAll(secs, accts), deleted);
      var r := UpsertAll(p, accts);
      UpsertAllNames(p, accts);
      var x, y := r[..|p|], r[|p|..];
      assert r == x + y;
      forall i | 0 <= i < |p| ensures x[i] == p[i] {
        RerunKeepsCleaned(secs, accts, deleted, i);
      }
      assert x == p;
      forall t | 0 <= t < |y| ensures Retired(y[t], deleted) {
        RerunAppendsRetired(secs, accts, deleted, |p| + t);
      }
      PruneAppend(x, y, deleted);
      PruneMembers(UpsertAll(secs, accts), deleted);
      forall i | 0 <= i < |p| ensures !Retired(p[i], deleted) {
        assert p[i] in p;
      }
      PruneKeepsClean(p, deleted);
      PruneDropsRetired(y, deleted);
    }
  }

  // ---------------------------------------------------------------------
  // The command itself

  /** Rewriting the same section twice is rewriting it once with both maps. */
  lemma UpdateOptionsTwice(secs: seq<Section>, name: string, a: Options, b: Options)
    ensures UpdateOptions(UpdateOptions(secs, name, a), name, b) == UpdateOptions(secs, name, a + b)
  {
    var mid := UpdateOptions(secs, name, a);
    var l, r := UpdateOptions(mid, name, b), UpdateOptions(secs, name, a + b);
    forall i | 0 <= i < |secs| ensures l[i] == r[i] {
      if secs[i].name == name {
        assert mid[i] == Section(name, secs[i].options + a);
        OverlayAssociative(secs[i].options, a, b);
      } else {
        assert mid[i] == secs[i];
      }
    }
    assert |l| == |r|;
  }

  /** Writing `a` and then `b` over a map is writing `a + b`. */
  lemma OverlayAssociative(m: Options, a: Options, b: Options)
    ensures (m + a) + b == m + (a + b)
  {
  }

  /** The five single-option writes add up to the five settings. */
  lemma FiveSets(secs: seq<Section>, section: string, accountId: string)
    ensures
      UpdateOptions(UpdateOptions(UpdateOptions(UpdateOptions(UpdateOptions(secs,
        section, map["sso_account_id" := accountId]),
        section, map["sso_role_name" := RoleName]),
        section, map["sso_region" := SsoRegion]),
        section, map["sso_start_url" := StartUrl]),
        section, map["region" := Region])
      == UpdateOptions(secs, section, ProfileOptions(accountId))
  {
    var m1, m2, m3 := map["sso_account_id" := accountId], map["sso_role_name" := RoleName], map["sso_region" := SsoRegion];
    var m4, m5 := map["sso_start_url" := StartUrl], map["region" := Region];
    UpdateOptionsTwice(secs, section, m1, m2);
    UpdateOptionsTwice(secs, section, m1 + m2, m3);
    UpdateOptionsTwice(secs, section, m1 + m2 + m3, m4);
    UpdateOptionsTwice(secs, section, m1 + m2 + m3 + m4, m5);
    assert m1 + m2 + m3 + m4 + m5 == ProfileOptions(accountId);
  }

  /** Filling a freshly appended empty section is appending the filled one. */
  lemma FillAppended(secs: seq<Section>, section: string, kv: Options)
    requires section !in Names(secs)
    ensures UpdateOptions(secs + [Section(section, map[])], section, kv) == secs + [Section(section, kv)]
  {
    var l := UpdateOptions(secs + [Section(section, map[])], section, kv);
    assert map[] + kv == kv;
    forall i | 0 <= i < |secs| ensures l[i] == secs[i] {
      assert Names(secs)[i] == secs[i].name;
    }
  }

  /** The body of the account loop once the account qualifies: create the
      section when missing, then set its five options. */
  method SetProfile(p: ConfigParser, section: string, accountId: string)
    requires p.Valid()
    modifies p
    ensures p.Valid()
    ensures p.sections == Upsert(old(p.sections), section, ProfileOptions(accountId))
  {
    ghost var before := p.sections;
    if !p.HasSection(section) {
      var _ := p.AddSection(section);
      FillAppended(before, section, ProfileOptions(accountId));
    }
    ghost var created := p.sections;
    var _ := p.Set(section, "sso_account_id", accountId);
    var _ := p.Set(section, "sso_role_name", RoleName);
    var _ := p.Set(section, "sso_region", SsoRegion);
    var _ := p.Set(section, "sso_start_url", StartUrl);
    var _ := p.Set(section, "region", Region);
    FiveSets(created, section, accountId);
  }

  /** The sections handled so far by the cleanup loop, followed by those
      still to come, have unique names. */
  lemma PruneStepUnique(u: seq<Section>, i: nat, deleted: seq<string>)
    requires UniqueNames(u) && i <= |u|
    ensures UniqueNames(Prune(u[..i], deleted) + u[i..])
  {
    var done := Prune(u[..i], deleted);
    var cur := done + u[i..];
    PruneMembers(u[..i], deleted);
    PruneUnique(u[..i], deleted);
    forall a, b | 0 <= a < b < |cur| ensures cur[a].name != cur[b].name {
      if b < |done| {
        assert cur[a] == done[a] && cur[b] == done[b];
      } else if a < |done| {
        assert cur[a] in u[..i];
        var k :| 0 <= k < i && u[..i][k] == cur[a];
        assert cur[b] == u[i + (b - |done|)];
      } else {
        assert cur[a] == u[i + (a - |done|)] && cur[b] == u[i + (b - |done|)];
      }
    }
  }

  /** Cleaning the first `i + 1` sections is cleaning the first `i` and
      then deciding section `i` alone. */
  lemma PruneExtend(u: seq<Section>, i: nat, deleted: seq<string>)
    requires i < |u|
    ensures Prune(u[..i + 1], deleted)
      == Prune(u[..i], deleted) + (if Retired(u[i], deleted) then [] else [u[i]])
  {
    assert u[..i + 1] == u[..i] + [u[i]];
    PruneAppend(u[..i], [u[i]], deleted);
    assert Prune([u[i]], deleted) == (if Retired(u[i], deleted) then [] else [u[i]]) + Prune([], deleted);
  }

  /** During cleanup, looking up the current section finds its own
      `sso_account_id`. */
  lemma PruneStepGet(u: seq<Section>, i: nat, deleted: seq<string>)
    requires UniqueNames(u) && i < |u|
    ensures var cur := Prune(u[..i], deleted) + u[i..];
      GetOption(cur, u[i].name, "sso_account_id")
      == (if "sso_account_id" in u[i].options then Some(u[i].options["sso_account_id"]) else None)
  {
    var done := Prune(u[..i], deleted);
    var cur := done + u[i..];
    PruneStepUnique(u, i, deleted);
    assert cur[|done|] == u[i];
    FindAt(cur, |done|);
  }

  /** Removing a retired current section leaves the next loop state. */
  lemma PruneStepRemove(u: seq<Section>, i: nat, deleted: seq<string>)
    requires UniqueNames(u) && i < |u| && Retired(u[i], deleted)
    ensures RemoveNamed(Prune(u[..i], deleted) + u[i..], u[i].name) == Prune(u[..i + 1], deleted) + u[i + 1..]
  {
    var done := Prune(u[..i], deleted);
    var cur := done + u[i..];
    PruneStepUnique(u, i, deleted);
    PruneExtend(u, i, deleted);
    assert cur[|done|] == u[i];
    RemoveNamedAt(cur, |done|);
    assert cur[..|done|] == done;
    assert cur[|done| + 1..] == u[i + 1..];
  }

  /** One step of the cleanup loop over a snapshot `u` of the sections, with
      the first `i` already handled. */
  lemma PruneStep(u: seq<Section>, i: nat, deleted: seq<string>)
    requires UniqueNames(u) && i < |u|
    ensures var cur := Prune(u[..i], deleted) + u[i..];
      && UniqueNames(cur)
      && GetOption(cur, u[i].name, "sso_account_id")
         == (if "sso_account_id" in u[i].options then Some(u[i].options["sso_account_id"]) else None)
      && (Retired(u[i], deleted) ==> RemoveNamed(cur, u[i].name) == Prune(u[..i + 1], deleted) + u[i + 1..])
      && (!Retired(u[i], deleted) ==> cur == Prune(u[..i + 1], deleted) + u[i + 1..])
  {
    PruneStepUnique(u, i, deleted);
    PruneStepGet(u, i, deleted);
    if Retired(u[i], deleted) {
      PruneStepRemove(u, i, deleted);
    } else {
      PruneExtend(u, i, deleted);
      assert Prune(u[..i], deleted) + u[i..] == Prune(u[..i], deleted) + [u[i]] + u[i + 1..];
    }
  }

  /** Why the command stops without writing. */
  datatype GenerateError = ConfigFileCorrupt

  /** What the command commits: the merged sections are saved to `newFile`,
      which is then renamed over `target`. */
  datatype Commit = Commit(newFile: string, target: string, sections: seq<Section>)

  /** The upsert phase over two runs of accounts is the second run applied
      to the outcome of the first. */
  lemma {:induction false} UpsertAllAppend(secs: seq<Section>, a: seq<Account>, b: seq<Account>)
    ensures UpsertAll(secs, a + b) == UpsertAll(UpsertAll(secs, a), b)
    decreases |b|
  {
    if b == [] {
      assert a + b == a;
    } else {
      var b' := b[..|b| - 1];
      assert (a + b)[..|a + b| - 1] == a + b';
      UpsertAllAppend(secs, a, b');
    }
  }

  /** The accounts of one more page follow those already flattened. */
  lemma FlattenSnoc(pages: seq<seq<Account>>, i: nat)
    requires i < |pages|
    ensures Flatten(pages[..i + 1]) == Flatten(pages[..i]) + pages[i]
  {
    assert pages[..i + 1][..i] == pages[..i];
  }

  /** One element of the listing: a qualifying account has its profile
      section created or refreshed; any other account changes nothing. */
  method UpsertAccount(p: ConfigParser, y: Account)
    requires p.Valid()
    modifies p
    ensures p.Valid()
    ensures p.sections == ApplyAccount(old(p.sections), y)
  {
    // skip accounts whose name has none of the three prefixes
    if !Qualifies(y.accountName) {
      return;
    }
    var trimmedAccountName := TrimPrefix(y.accountName, "trip-");
    trimmedAccountName := TrimPrefix(trimmedAccountName, "tripadvisor-");
    var section := "profile " + trimmedAccountName;
    SetProfile(p, section, y.accountId);
  }

  /** The accounts of one page, in order. */
  method UpsertPage(p: ConfigParser, page: seq<Account>)
    requires p.Valid()
    modifies p
    ensures p.Valid()
    ensures p.sections == UpsertAll(old(p.sections), page)
  {
    ghost var s0 := p.sections;
    for j := 0 to |page|
      invariant p.Valid()
      invariant p.sections == UpsertAll(s0, page[..j])
    {
      assert page[..j + 1][..j] == page[..j];
      UpsertAccount(p, page[j]);
    }
    assert page[..|page|] == page;
  }

  /** The paging loop: every account of every page, in order. */
  method UpsertPages(p: ConfigParser, pages: seq<seq<Account>>)
    requires p.Valid()
    modifies p
    ensures p.Valid()
    ensures p.sections == UpsertAll(old(p.sections), Flatten(pages))
  {
    ghost var s0 := p.sections;
    for i := 0 to |pages|
      invariant p.Valid()
      invariant p.sections == UpsertAll(s0, Flatten(pages[..i]))
    {
      FlattenSnoc(pages, i);
      UpsertAllAppend(s0, Flatten(pages[..i]), pages[i]);
      UpsertPage(p, pages[i]);
    }
    assert pages[..|pages|] == pages;
  }

  /** The cleanup loop: over a snapshot of the section names, a section whose
      `sso_account_id` is retired is removed. */
  method RemoveRetired(p: ConfigParser, deletedAccounts: seq<string>)
    requires p.Valid()
    modifies p
    ensures p.Valid()
    ensures p.sections == Prune(old(p.sections), deletedAccounts)
  {
    var sections := p.SectionNames();
    ghost var u := p.sections;
    for i := 0 to |sections|
      invariant p.Valid()
      invariant p.sections == Prune(u[..i], deletedAccounts) + u[i..]
    {
      PruneStep(u, i, deletedAccounts);
      var accountID := p.Get(sections[i], "sso_account_id");
      if accountID.None? {
        continue;
      }
      if accountID.value in deletedAccounts {
        var _ := p.RemoveSection(sections[i]);
      }
    }
    assert u[..|u|] == u;
  }

  /** `generateAwsConfigFile`: merges the listing into the parsed config file
      (None when the file could not be parsed), then with `cleanup` drops
      the sections of retired accounts. */
  method GenerateAwsConfigFile(configFile: string, parsed: Option<seq<Section>>,
                               pages: seq<seq<Account>>, cleanup: bool)
    returns (r: Result<Commit, GenerateError>)
    requires parsed.Some? ==> UniqueNames(parsed.value)
    ensures parsed.None? ==> r == Failure(ConfigFileCorrupt)
    ensures parsed.Some? ==> r == Success(Commit(configFile + ".new", configFile,
      Reconcile(parsed.value, pages, cleanup, DeletedAccounts)))
  {
    var configFileNew := configFile + ".new";
    if parsed.None? {
      return Failure(ConfigFileCorrupt);
    }
    var awsConfig := new ConfigParser(parsed.value);
    UpsertPages(awsConfig, pages);
    if cleanup {
      RemoveRetired(awsConfig, DeletedAccounts);
    }
    return Success(Commit(configFileNew, configFile, awsConfig.sections));
  }
}
