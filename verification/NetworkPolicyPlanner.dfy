/**
  Which files a NetworkPolicy pull request for one namespace brings
  (networkpolicy/reconciliation_single.go): new policies from templates (variant A),
  backups of policies made from templates (B), backups of other policies (C); and
  whether it may be merged without a human.

  Main results: planned paths are distinct and new; only purely new files are merged
  automatically; planning again once the files are in Git makes up for what failed
  before and can be done now, and for nothing else.
 */
module NetworkPolicyPlanner {
  import opened Strings

  const YAML := ".yaml"

  /** What the plan depends on beside Git, templates and cluster. */
  datatype Config = Config(
    clusterName: string, namespace: string,
    backupExisting: bool, excludedFromBackup: bool,
    templateOk: string -> bool, backupOk: string -> bool)
  {
    predicate Backup() {
      backupExisting && !excludedFromBackup
    }

    function PolicyName(template: string): string {
      namespace + "-" + TrimSuffix(template, YAML)
    }

    function Path(fileName: string): string {
      "networkpolicies/" + clusterName + "/" + namespace + "/" + fileName
    }
  }

  datatype File = File(path: string, policy: string, isBackup: bool)

  // ---------- the plan ----------

  /** A policy's file, whether it comes from a template or from the cluster. */
  function FileOf(cfg: Config, policy: string, isBackup: bool): File {
    File(cfg.Path(policy + YAML), policy, isBackup)
  }

  function PlanTemplate(git: set<string>, cluster: set<string>, cfg: Config, template: string): Option<File> {
    var policy := cfg.PolicyName(template);
    if cfg.Path(policy + YAML) in git then None
    else if policy !in cluster then
      if cfg.templateOk(template) then Some(FileOf(cfg, policy, false)) else None
    else if cfg.Backup() && cfg.backupOk(policy) then Some(FileOf(cfg, policy, true))
    else None
  }

  predicate FromTemplate(cfg: Config, templates: seq<string>, policy: string) {
    exists t :: t in templates && policy == cfg.PolicyName(t)
  }

  function PlanOther(git: set<string>, templates: seq<string>, cfg: Config, policy: string): Option<File> {
    if !cfg.Backup() || FromTemplate(cfg, templates, policy) then None
    else if cfg.Path(policy + YAML) in git || !cfg.backupOk(policy) then None
    else Some(FileOf(cfg, policy, true))
  }

  /** The values of the items that have one, in order. */
  function Collect<T>(items: seq<T>, f: T -> Option<File>): (files: seq<File>)
    ensures |files| <= |items|
  {
    if items == [] then []
    else
      var n := |items| - 1;
      Collect(items[..n], f) + (if f(items[n]).Some? then [f(items[n]).value] else [])
  }

  function Plan(git: set<string>, templates: seq<string>, policies: seq<string>, cfg: Config): seq<File> {
    Collect(templates, (t: string) => PlanTemplate(git, Elements(policies), cfg, t))
    + Collect(policies, (p: string) => PlanOther(git, templates, cfg, p))
  }

  // ---------- the operator's method ----------

  method PlanFiles(git: set<string>, templates: seq<string>, policies: seq<string>, cfg: Config)
    returns (filesToCreate: seq<File>)
    ensures filesToCreate == Plan(git, templates, policies, cfg)
  {
    ghost var planTemplate := (t: string) => PlanTemplate(git, Elements(policies), cfg, t);
    var clusterPolicyMap: map<string, nat> := map[];
    for i := 0 to |policies|
      invariant forall p :: p in clusterPolicyMap <==> p in policies[..i]
    {
      clusterPolicyMap := clusterPolicyMap[policies[i] := i];
    }
    filesToCreate := [];
    for i := 0 to |templates|
      invariant filesToCreate == Collect(templates[..i], planTemplate)
    {
      assert templates[..i + 1][..i] == templates[..i];
      var expectedPolicyName := cfg.PolicyName(templates[i]);
      var fileName := cfg.namespace + "-" + TrimSuffix(templates[i], YAML) + YAML;
      var filePath := cfg.Path(fileName);
      if filePath in git {
        continue;
      }
      if expectedPolicyName !in clusterPolicyMap {
        if !cfg.templateOk(templates[i]) {
          continue;
        }
        filesToCreate := filesToCreate + [File(filePath, expectedPolicyName, false)];
      } else if cfg.backupExisting && !cfg.excludedFromBackup {
        if !cfg.backupOk(expectedPolicyName) {
          continue;
        }
        filesToCreate := filesToCreate + [File(filePath, expectedPolicyName, true)];
      }
    }
    assert templates[..|templates|] == templates;
    if cfg.backupExisting && !cfg.excludedFromBackup {
      var others := PlanOthers(git, templates, policies, cfg);
      filesToCreate := filesToCreate + others;
    } else {
      CollectNothing(policies, (p: string) => PlanOther(git, templates, cfg, p));
    }
  }

  method PlanOthers(git: set<string>, templates: seq<string>, policies: seq<string>, cfg: Config)
    returns (files: seq<File>)
    requires cfg.Backup()
    ensures files == Collect(policies, (p: string) => PlanOther(git, templates, cfg, p))
  {
    ghost var planOther := (p: string) => PlanOther(git, templates, cfg, p);
    files := [];
    for i := 0 to |policies|
      invariant files == Collect(policies[..i], planOther)
    {
      assert policies[..i + 1][..i] == policies[..i];
      var isFromTemplate := false;
      for j := 0 to |templates|
        invariant !isFromTemplate && forall k :: 0 <= k < j ==> policies[i] != cfg.PolicyName(templates[k])
      {
        if policies[i] == cfg.PolicyName(templates[j]) {
          isFromTemplate := true;
          break;
        }
      }
      assert isFromTemplate <==> FromTemplate(cfg, templates, policies[i]);
      if !isFromTemplate {
        var filePath := cfg.Path(policies[i] + YAML);
        if filePath !in git {
          if !cfg.backupOk(policies[i]) {
            continue;
          }
          files := files + [File(filePath, policies[i], true)];
        }
      }
    }
    assert policies[..|policies|] == policies;
  }

  /** The order of the items is kept. */
  lemma {:induction false} CollectInOrder<T>(items: seq<T>, more: seq<T>, f: T -> Option<File>)
    ensures Collect(items + more, f) == Collect(items, f) + Collect(more, f)
  {
    if more == [] {
      assert items + more == items;
    } else {
      var n := |more| - 1;
      assert (items + more)[..|items + more| - 1] == items + more[..n];
      CollectInOrder(items, more[..n], f);
    }
  }

  lemma {:induction false} CollectNothing<T>(items: seq<T>, f: T -> Option<File>)
    requires forall x :: x in items ==> f(x).None?
    ensures Collect(items, f) == []
  {
    if items == [] {
    } else {
      assert items[|items| - 1] in items;
      CollectNothing(items[..|items| - 1], f);
    }
  }

  // ---------- paths ----------

  /** A template directory lists each ".yaml" file once. */
  predicate TemplateListing(templates: seq<string>) {
    Distinct(templates) && forall t :: t in templates ==> HasSuffix(t, YAML)
  }

  lemma PathInjective(cfg: Config, p: string, q: string)
    requires cfg.Path(p + YAML) == cfg.Path(q + YAML)
    ensures p == q
  {
    var dir := "networkpolicies/" + cfg.clusterName + "/" + cfg.namespace + "/";
    assert cfg.Path(p + YAML) == dir + (p + YAML) && cfg.Path(q + YAML) == dir + (q + YAML);
    assert p + YAML == (dir + (p + YAML))[|dir|..] == (dir + (q + YAML))[|dir|..] == q + YAML;
    assert p == (p + YAML)[..|p|] && q == (q + YAML)[..|q|];
  }

  lemma PolicyNameInjective(cfg: Config, t: string, u: string)
    requires HasSuffix(t, YAML) && HasSuffix(u, YAML) && cfg.PolicyName(t) == cfg.PolicyName(u)
    ensures t == u
  {
    var dash := cfg.namespace + "-";
    assert TrimSuffix(t, YAML) == cfg.PolicyName(t)[|dash|..];
    assert TrimSuffix(u, YAML) == cfg.PolicyName(u)[|dash|..];
    SuffixSplits(t, YAML);
    SuffixSplits(u, YAML);
  }

  lemma {:induction false} CollectHas<T>(items: seq<T>, f: T -> Option<File>, file: File)
    ensures file in Collect(items, f) <==> exists x :: x in items && f(x) == Some(file)
  {
    if items == [] {
    } else {
      var n := |items| - 1;
      CollectHas(items[..n], f, file);
      assert items == items[..n] + [items[n]];
    }
  }

  ghost predicate DistinctPaths(files: seq<File>) {
    forall i, j :: 0 <= i < j < |files| ==> files[i].path != files[j].path
  }

  /** Items that never yield the same path twice yield distinct paths. */
  lemma {:induction false} CollectDistinct<T>(items: seq<T>, f: T -> Option<File>)
    requires Distinct(items)
    requires forall x, y :: x in items && y in items && x != y && f(x).Some? && f(y).Some? ==>
               f(x).value.path != f(y).value.path
    ensures DistinctPaths(Collect(items, f))
  {
    if items == [] {
    } else {
      var n := |items| - 1;
      var init := items[..n];
      assert forall x :: x in init ==> x in items;
      CollectDistinct(init, f);
      if f(items[n]).Some? {
        forall file | file in Collect(init, f)
          ensures file.path != f(items[n]).value.path
        {
          CollectHas(init, f, file);
          var x :| x in init && f(x) == Some(file);
          var k :| 0 <= k < n && items[k] == x;
          assert items[n] in items && x != items[n];
        }
      }
    }
  }

  lemma TemplateFile(git: set<string>, policies: seq<string>, cfg: Config, t: string)
    ensures var r := PlanTemplate(git, Elements(policies), cfg, t);
            r.Some? ==> r.value.policy == cfg.PolicyName(t) && r.value.path == cfg.Path(r.value.policy + YAML)
                        && r.value.path !in git
  {}

  lemma OtherFile(git: set<string>, templates: seq<string>, cfg: Config, p: string)
    ensures var r := PlanOther(git, templates, cfg, p);
            r.Some? ==> r.value.policy == p && !FromTemplate(cfg, templates, p)
                        && r.value.path == cfg.Path(p + YAML) && r.value.path !in git
  {}

  /** No planned path is planned twice, and none is in Git already. */
  lemma PlanIsConflictFree(git: set<string>, templates: seq<string>, policies: seq<string>, cfg: Config)
    requires TemplateListing(templates) && Distinct(policies)
    ensures var plan := Plan(git, templates, policies, cfg);
            DistinctPaths(plan) && forall f :: f in plan ==> f.path !in git
  {
    hide PlanTemplate, PlanOther;
    var f := (t: string) => PlanTemplate(git, Elements(policies), cfg, t);
    var g := (p: string) => PlanOther(git, templates, cfg, p);
    forall t, u | t in templates && u in templates && t != u && f(t).Some? && f(u).Some?
      ensures f(t).value.path != f(u).value.path
    {
      TemplateFile(git, policies, cfg, t);
      TemplateFile(git, policies, cfg, u);
      if f(t).value.path == f(u).value.path {
        PathInjective(cfg, cfg.PolicyName(t), cfg.PolicyName(u));
        PolicyNameInjective(cfg, t, u);
      }
    }
    CollectDistinct(templates, f);
    forall p, q | p in policies && q in policies && p != q && g(p).Some? && g(q).Some?
      ensures g(p).value.path != g(q).value.path
    {
      OtherFile(git, templates, cfg, p);
      OtherFile(git, templates, cfg, q);
      if g(p).value.path == g(q).value.path {
        PathInjective(cfg, p, q);
      }
    }
    CollectDistinct(policies, g);
    forall a, b | a in Collect(templates, f) && b in Collect(policies, g)
      ensures a.path != b.path
    {
      CollectHas(templates, f, a);
      CollectHas(policies, g, b);
      var t :| t in templates && f(t) == Some(a);
      var p :| p in policies && g(p) == Some(b);
      TemplateFile(git, policies, cfg, t);
      OtherFile(git, templates, cfg, p);
      if a.path == b.path {
        PathInjective(cfg, a.policy, b.policy);
      }
    }
    forall a | a in Plan(git, templates, policies, cfg)
      ensures a.path !in git
    {
      CollectHas(templates, f, a);
      CollectHas(policies, g, a);
      if t :| t in templates && f(t) == Some(a) {
        TemplateFile(git, policies, cfg, t);
      } else {
        var p :| p in policies && g(p) == Some(a);
        OtherFile(git, templates, cfg, p);
      }
    }
  }

  // ---------- merging ----------

  datatype Variant = New | BackupVariant

  method DecideMerge(files: seq<File>, autoMergeEnabled: bool) returns (variant: Variant, autoMerge: bool)
    ensures variant == New <==> forall f :: f in files ==> !f.isBackup
    ensures autoMerge <==> files != [] && autoMergeEnabled && variant == New
  {
    variant, autoMerge := New, false;
    if |files| > 0 {
      var hasBackup := false;
      for i := 0 to |files|
        invariant !hasBackup && forall k :: 0 <= k < i ==> !files[k].isBackup
      {
        if files[i].isBackup {
          hasBackup := true;
          break;
        }
      }
      if hasBackup {
        variant, autoMerge := BackupVariant, false;
      } else {
        variant, autoMerge := New, autoMergeEnabled;
      }
    }
  }

  /**
    A planned file is no backup exactly if it comes from a template whose policy the
    cluster lacks. A backup is planned only of a policy the cluster has, only if wanted.
   */
  lemma NewFilesComeFromTemplates(git: set<string>, templates: seq<string>, policies: seq<string>, cfg: Config, f: File)
    requires f in Plan(git, templates, policies, cfg)
    ensures !f.isBackup <==> FromTemplate(cfg, templates, f.policy) && f.policy !in policies
    ensures f.isBackup ==> cfg.Backup() && f.policy in policies && cfg.backupOk(f.policy)
    ensures f.path == cfg.Path(f.policy + YAML)
  {
    CollectHas(templates, (t: string) => PlanTemplate(git, Elements(policies), cfg, t), f);
    CollectHas(policies, (p: string) => PlanOther(git, templates, cfg, p), f);
  }

  // ---------- what is covered ----------

  /**
    Exactly which policies have their file in Git once the plan is there: those that had
    it, those a template makes new (A), and with backups on those the cluster has (B and
    C); the last two save for a template or backup that could not be processed. So with
    backups off a template whose policy is in the cluster already gets no file.
   */
  lemma PlanCovers(git: set<string>, templates: seq<string>, policies: seq<string>, cfg: Config, p: string)
    ensures cfg.Path(p + YAML) in git + Paths(Plan(git, templates, policies, cfg)) <==>
              || cfg.Path(p + YAML) in git
              || (p !in policies && exists t :: t in templates && p == cfg.PolicyName(t) && cfg.templateOk(t))
              || (p in policies && cfg.Backup() && cfg.backupOk(p))
  {
    hide Plan, Paths;
    var files := git + Paths(Plan(git, templates, policies, cfg));
    if t :| t in templates && p == cfg.PolicyName(t) && PlanTemplate(git, Elements(policies), cfg, t).Some? {
      PlannedIsInGit(git, templates, policies, cfg, PlanTemplate(git, Elements(policies), cfg, t).value);
    } else if p in policies && PlanOther(git, templates, cfg, p).Some? {
      PlannedIsInGit(git, templates, policies, cfg, PlanOther(git, templates, cfg, p).value);
    } else if cfg.Path(p + YAML) in files && cfg.Path(p + YAML) !in git {
      var f := PathPlanned(git, templates, policies, cfg, cfg.Path(p + YAML));
      PathInjective(cfg, f.policy, p);
      assert false;
    }
  }

  /** A planned path is some template's or some other policy's file. */
  lemma PathPlanned(git: set<string>, templates: seq<string>, policies: seq<string>, cfg: Config, path: string)
    returns (f: File)
    requires path in Paths(Plan(git, templates, policies, cfg))
    ensures f.path == path == cfg.Path(f.policy + YAML)
    ensures || (exists t :: t in templates && f.policy == cfg.PolicyName(t)
                            && PlanTemplate(git, Elements(policies), cfg, t) == Some(f))
            || (f.policy in policies && PlanOther(git, templates, cfg, f.policy) == Some(f))
  {
    f :| f in Plan(git, templates, policies, cfg) && f.path == path;
    CollectHas(templates, (t: string) => PlanTemplate(git, Elements(policies), cfg, t), f);
    CollectHas(policies, (p: string) => PlanOther(git, templates, cfg, p), f);
  }

  // ---------- planning again ----------

  function Paths(files: seq<File>): set<string> {
    set f | f in files :: f.path
  }

  /** The cluster since: everything it had, and some of the policies planned from templates. */
  ghost predicate GrownBy(policies: seq<string>, later: seq<string>, plan: seq<File>) {
    && (forall p :: p in policies ==> p in later)
    && (forall p :: p in later ==> p in policies || exists f :: f in plan && !f.isBackup && f.policy == p)
  }

  /** The same namespace and settings; templates and backups may fail and succeed otherwise. */
  ghost predicate SameSettings(cfg: Config, cfg2: Config) {
    cfg2 == cfg.(templateOk := cfg2.templateOk, backupOk := cfg2.backupOk)
  }

  /** No template for the policy could be processed the first time, and one can be now. */
  predicate TemplateNow(git: set<string>, templates: seq<string>, policies: seq<string>, cfg: Config, cfg2: Config,
                        p: string) {
    && cfg.Path(p + YAML) !in git && p !in policies
    && (forall t :: t in templates && p == cfg.PolicyName(t) ==> !cfg.templateOk(t))
    && exists t :: t in templates && p == cfg.PolicyName(t) && cfg2.templateOk(t)
  }

  /** The policy's backup failed the first time and succeeds now. */
  predicate BackupNow(git: set<string>, policies: seq<string>, cfg: Config, cfg2: Config, p: string) {
    cfg.Path(p + YAML) !in git && p in policies && cfg.Backup() && !cfg.backupOk(p) && cfg2.backupOk(p)
  }

  /**
    Planning again, once the first plan's files are in Git and with any part of the new
    policies in the cluster: the second plan makes up for what failed in the first and can
    be done now, and for nothing else.
   */
  lemma ReplanningRetries(git: set<string>, templates: seq<string>, policies: seq<string>, later: seq<string>,
                          cfg: Config, cfg2: Config, f: File)
    requires SameSettings(cfg, cfg2) && GrownBy(policies, later, Plan(git, templates, policies, cfg))
    ensures f in Plan(git + Paths(Plan(git, templates, policies, cfg)), templates, later, cfg2) <==>
              && f == FileOf(cfg, f.policy, f.isBackup)
              && (if f.isBackup then BackupNow(git, policies, cfg, cfg2, f.policy)
                  else TemplateNow(git, templates, policies, cfg, cfg2, f.policy))
  {
    hide Plan, Paths;
    var git2 := git + Paths(Plan(git, templates, policies, cfg));
    PlanHas(git2, templates, later, cfg2, f);
    PlanCovers(git, templates, policies, cfg, f.policy);
    LaterOnlyPlanned(git, templates, policies, later, cfg, f.policy);
  }

  /** What a plan holds, policy by policy. */
  lemma PlanHas(git: set<string>, templates: seq<string>, policies: seq<string>, cfg: Config, f: File)
    ensures f in Plan(git, templates, policies, cfg) <==>
              && f == FileOf(cfg, f.policy, f.isBackup) && f.path !in git
              && (if f.isBackup then f.policy in policies && cfg.Backup() && cfg.backupOk(f.policy)
                  else f.policy !in policies
                       && exists t :: t in templates && f.policy == cfg.PolicyName(t) && cfg.templateOk(t))
  {
    var planTemplate := (t: string) => PlanTemplate(git, Elements(policies), cfg, t);
    var planOther := (p: string) => PlanOther(git, templates, cfg, p);
    CollectHas(templates, planTemplate, f);
    CollectHas(policies, planOther, f);
    hide Collect;
    if f == FileOf(cfg, f.policy, f.isBackup) && f.path !in git {
      if f.isBackup {
        if f.policy in policies && cfg.Backup() && cfg.backupOk(f.policy) {
          if t :| t in templates && f.policy == cfg.PolicyName(t) {
            assert planTemplate(t) == Some(f);
          } else {
            assert planOther(f.policy) == Some(f);
          }
        }
      } else if t :| t in templates && f.policy == cfg.PolicyName(t) && cfg.templateOk(t) {
        assert f.policy !in policies ==> planTemplate(t) == Some(f);
      }
    }
  }

  /** A policy that is new in the cluster has its file in Git. */
  lemma LaterOnlyPlanned(git: set<string>, templates: seq<string>, policies: seq<string>, later: seq<string>,
                         cfg: Config, p: string)
    requires GrownBy(policies, later, Plan(git, templates, policies, cfg))
    ensures p in policies ==> p in later
    ensures p in later && p !in policies ==> cfg.Path(p + YAML) in Paths(Plan(git, templates, policies, cfg))
  {
    hide Plan, Paths;
    if p in later && p !in policies {
      var f :| f in Plan(git, templates, policies, cfg) && !f.isBackup && f.policy == p;
      PlannedPath(git, templates, policies, cfg, f);
    }
  }

  /**
    So the planner is at a fixpoint exactly when nothing that failed can be done now; in
    particular when the same templates and backups fail again.
   */
  lemma ReplanningPlansNothing(git: set<string>, templates: seq<string>, policies: seq<string>, later: seq<string>,
                               cfg: Config, cfg2: Config)
    requires SameSettings(cfg, cfg2) && GrownBy(policies, later, Plan(git, templates, policies, cfg))
    ensures Plan(git + Paths(Plan(git, templates, policies, cfg)), templates, later, cfg2) == [] <==>
              forall p :: !TemplateNow(git, templates, policies, cfg, cfg2, p)
                          && !BackupNow(git, policies, cfg, cfg2, p)
    ensures cfg2 == cfg ==> Plan(git + Paths(Plan(git, templates, policies, cfg)), templates, later, cfg2) == []
  {
    hide Plan, Paths, TemplateNow, BackupNow;
    var again := Plan(git + Paths(Plan(git, templates, policies, cfg)), templates, later, cfg2);
    forall f
      ensures f in again <==>
                f == FileOf(cfg, f.policy, f.isBackup)
                && (if f.isBackup then BackupNow(git, policies, cfg, cfg2, f.policy)
                    else TemplateNow(git, templates, policies, cfg, cfg2, f.policy))
    {
      ReplanningRetries(git, templates, policies, later, cfg, cfg2, f);
    }
    forall p
      ensures TemplateNow(git, templates, policies, cfg, cfg2, p) ==> FileOf(cfg, p, false) in again
      ensures BackupNow(git, policies, cfg, cfg2, p) ==> FileOf(cfg, p, true) in again
    {}
    if again != [] {
      assert again[0] in again;
    }
    if cfg2 == cfg {
      forall p
        ensures !TemplateNow(git, templates, policies, cfg, cfg2, p) && !BackupNow(git, policies, cfg, cfg2, p)
      {
        NothingNew(git, templates, policies, cfg, p);
      }
    }
  }

  lemma NothingNew(git: set<string>, templates: seq<string>, policies: seq<string>, cfg: Config, p: string)
    ensures !TemplateNow(git, templates, policies, cfg, cfg, p) && !BackupNow(git, policies, cfg, cfg, p)
  {}

  /** A template that fails once and succeeds the next time: the second plan is not empty. */
  lemma RetryExample(cfg: Config)
    requires forall t :: !cfg.templateOk(t)
    ensures var git, cfg2 := {}, cfg.(templateOk := t => true);
            && Plan(git, ["web.yaml"], [], cfg) == []
            && Plan(git + Paths(Plan(git, ["web.yaml"], [], cfg)), ["web.yaml"], [], cfg2) != []
  {
    var cfg2 := cfg.(templateOk := t => true);
    var p := cfg.PolicyName("web.yaml");
    NothingPlanned(cfg);
    hide Plan, TemplateNow;
    assert TemplateNow({}, ["web.yaml"], [], cfg, cfg2, p) by { WebIsNow(cfg, cfg2); }
    ReplanningPlansNothing({}, ["web.yaml"], [], [], cfg, cfg2);
  }

  lemma WebIsNow(cfg: Config, cfg2: Config)
    requires forall t :: !cfg.templateOk(t) && cfg2.templateOk(t)
    ensures TemplateNow({}, ["web.yaml"], [], cfg, cfg2, cfg.PolicyName("web.yaml"))
  {
    assert "web.yaml" in ["web.yaml"];
  }

  lemma NothingPlanned(cfg: Config)
    requires forall t :: !cfg.templateOk(t)
    ensures Plan({}, ["web.yaml"], [], cfg) == []
  {
    var plan := Plan({}, ["web.yaml"], [], cfg);
    if plan != [] {
      assert plan[0] in plan;
      PlanHas({}, ["web.yaml"], [], cfg, plan[0]);
      assert false;
    }
  }

  lemma PlannedIsInGit(git: set<string>, templates: seq<string>, policies: seq<string>, cfg: Config, f: File)
    requires (exists t :: t in templates && PlanTemplate(git, Elements(policies), cfg, t) == Some(f))
             || (exists p :: p in policies && PlanOther(git, templates, cfg, p) == Some(f))
    ensures f in Plan(git, templates, policies, cfg) && f.path in Paths(Plan(git, templates, policies, cfg))
  {
    hide PlanTemplate, PlanOther;
    CollectHas(templates, (t: string) => PlanTemplate(git, Elements(policies), cfg, t), f);
    CollectHas(policies, (p: string) => PlanOther(git, templates, cfg, p), f);
  }

  lemma PlannedPath(git: set<string>, templates: seq<string>, policies: seq<string>, cfg: Config, f: File)
    requires f in Plan(git, templates, policies, cfg)
    ensures f.path == cfg.Path(f.policy + YAML) && f.path in Paths(Plan(git, templates, policies, cfg))
  {
    CollectHas(templates, (t: string) => PlanTemplate(git, Elements(policies), cfg, t), f);
    CollectHas(policies, (p: string) => PlanOther(git, templates, cfg, p), f);
  }

  // ---------- what is planned, spelled out ----------

  /** The policy of a template file: namespace, dash, and the file's name without ".yaml". */
  ghost predicate IsPolicyOf(policy: string, template: string, namespace: string) {
    exists base ::
      policy == namespace + "-" + base
      && (template == base + ".yaml" || (template == base && !HasSuffix(template, ".yaml")))
  }

  lemma PolicyNameIs(cfg: Config, template: string, policy: string)
    ensures policy == cfg.PolicyName(template) <==> IsPolicyOf(policy, template, cfg.namespace)
  {
    var base := TrimSuffix(template, YAML);
    if HasSuffix(template, YAML) {
      SuffixSplits(template, YAML);
    }
    if b :| policy == cfg.namespace + "-" + b
            && (template == b + ".yaml" || (template == b && !HasSuffix(template, ".yaml"))) {
      SuffixOfConcat(b, YAML);
      assert b == base;
    }
    if policy == cfg.PolicyName(template) {
      assert policy == cfg.namespace + "-" + base;
    }
  }

  /**
    The plan in terms of names alone: a file lies under the cluster's and the namespace's
    directory, is not in Git, and is a new policy of a template the cluster does not have,
    or the backup of a policy it has.
   */
  lemma PlannedExactly(git: set<string>, templates: seq<string>, policies: seq<string>, cfg: Config, f: File)
    ensures f in Plan(git, templates, policies, cfg) <==>
              && f.path == "networkpolicies/" + cfg.clusterName + "/" + cfg.namespace + "/" + f.policy + ".yaml"
              && f.path !in git
              && (if f.isBackup
                  then f.policy in policies && cfg.backupExisting && !cfg.excludedFromBackup && cfg.backupOk(f.policy)
                  else f.policy !in policies
                       && exists t :: t in templates && IsPolicyOf(f.policy, t, cfg.namespace) && cfg.templateOk(t))
  {
    hide Plan, IsPolicyOf;
    PlanHas(git, templates, policies, cfg, f);
    forall t
      ensures f.policy == cfg.PolicyName(t) <==> IsPolicyOf(f.policy, t, cfg.namespace)
    {
      PolicyNameIs(cfg, t, f.policy);
    }
    var dir := "networkpolicies/" + cfg.clusterName + "/" + cfg.namespace + "/";
    assert dir + (f.policy + ".yaml") == dir + f.policy + ".yaml";
  }

  // ---------- drift detection looks at the planner's files ----------

  /**
    The file a cluster policy is compared with: told from its template annotation, if it has
    one, else from its name.
   */
  function DriftPath(cfg: Config, name: string, template: string): string {
    if template != "" then cfg.Path(cfg.namespace + "-" + TrimSuffix(template, YAML) + YAML) else cfg.Path(name + YAML)
  }

  /**
    Exactly which policies are compared with their own file, the one the planner writes
    for them: those without the annotation, and those that bear the name made from it. Any
    other annotated policy, say a renamed copy, is compared with another policy's file.
   */
  lemma DriftComparesOwnFile(cfg: Config, name: string, template: string)
    ensures DriftPath(cfg, name, template) == cfg.Path(name + YAML)
            <==> template == "" || cfg.PolicyName(template) == name
    ensures template != "" ==> DriftPath(cfg, name, template) == cfg.Path(cfg.PolicyName(template) + YAML)
  {
    if template != "" && DriftPath(cfg, name, template) == cfg.Path(name + YAML) {
      PathInjective(cfg, cfg.PolicyName(template), name);
    }
  }

  /** What the planner writes for a policy is where drift detection will look for it, and the other way round. */
  lemma PlannedIsCompared(git: set<string>, templates: seq<string>, policies: seq<string>, cfg: Config, f: File,
                          template: string)
    requires f in Plan(git, templates, policies, cfg)
    ensures DriftPath(cfg, f.policy, template) == f.path <==> template == "" || cfg.PolicyName(template) == f.policy
  {
    PlannedPath(git, templates, policies, cfg, f);
    DriftComparesOwnFile(cfg, f.policy, template);
  }
}
