/** The second state Claude Desktop keeps, merged into this machine's own: what the merge writes. */
module DesktopMerge {
  import opened Options
  import opened DesktopState
  import opened GithubSettings
  import opened VirtualImport

  /** This machine's files, and whether the private folder is still in its place. */
  datatype Files = Files(
    domains: map<string, Entry>, github: Option<Github>, origins: set<string>, engrams: map<string, Engrams>, privateThere: bool)

  /** The private state: its domains in name order, its settings, the names with team state, its virtual engrams as exported. */
  datatype Private = Private(list: seq<(string, Entry)>, github: Option<Github>, team: set<string>, engrams: map<string, Export>)

  /** What goes wrong: the refusal up front, the save, removing a copied team state, indexing, a virtual domain before and after it is registered, the rename. */
  datatype Fault = Fault(
    refused: bool, save: bool, removes: set<string>, sync: set<string>, virtuals: set<string>, imports: set<string>, rename: bool)

  /** What the merge reports, by domain name. */
  datatype Report = Report(
    registered: seq<string>, already: seq<string>, kept: seq<string>, conflicts: seq<string>, notMoved: seq<string>,
    originsCopied: seq<string>, githubCarried: seq<Key>, imported: seq<(string, nat)>, keptBoth: seq<(string, nat)>, renamed: bool)

  // ----- the steps

  function SceneOf(w: World, f: Files, p: Private): Scene {
    Scene(w, f.domains, f.origins, p.list, p.team)
  }

  function IsRegistered(o: Outcome): bool { o.Registered? }

  function IsCarried(o: Outcome): bool { o == Registered(true) }

  function IsAlready(o: Outcome): bool { o.Already? }

  function IsInside(o: Outcome): bool { o.KeptInside? }

  /** The virtual domains to move, each with whether this machine has it too. */
  function Virtuals(s: Scene, n: nat): seq<(string, bool)>
    requires n <= |s.list|
  {
    if n == 0 then []
    else
      var o := OutcomeAt(s, n - 1);
      Virtuals(s, n - 1)
      + (if o.NewVirtual? then [(s.list[n - 1].0, false)] else if o.SameVirtual? then [(s.list[n - 1].0, true)] else [])
  }

  function Names'(s: Scene, pick: Outcome -> bool): seq<string> {
    Names(s, pick, |s.list|)
  }

  function Sorted(s: Scene, r: Report): Report {
    r.(already := r.already + Names'(s, IsAlready), kept := r.kept + Names'(s, IsKept), conflicts := r.conflicts + Names'(s, IsConflict))
  }

  function EngramsOf(engrams: map<string, Engrams>, name: string): Engrams {
    if name in engrams then engrams[name] else map[]
  }

  function ExportOf(p: Private, name: string): Export {
    if name in p.engrams then p.engrams[name] else []
  }

  /** A virtual domain registered, unless it is. */
  function Registering(f: Files, r: Report, name: string, both: bool): (Files, Report) {
    if both then (f, r)
    else (if name in f.domains then f else f.(domains := f.domains[name := VIRTUAL_DOMAIN]), r.(registered := r.registered + [name]))
  }

  /** Its private engrams moved. */
  function Importing(p: Private, e: Engine, f: Files, r: Report, name: string, both: bool): (Files, Report) {
    var here, there := EngramsOf(f.engrams, name), ExportOf(p, name);
    var written, differing := |Paths(e, here, there, Written, |there|)|, |Differing(e, here, there)|;
    (f.(engrams := f.engrams[name := Imported(e, here, there)]),
     r.(imported := if written > 0 || !both then r.imported + [(name, written)] else r.imported,
        notMoved := if Paths(e, here, there, Warned, |there|) != [] then r.notMoved + [name] else r.notMoved,
        keptBoth := if differing > 0 then r.keptBoth + [(name, differing)] else r.keptBoth))
  }

  datatype Ended = Ended(files: Files, report: Report, ok: bool)

  function Moves(p: Private, e: Engine, fault: Fault, f: Files, r: Report, virtuals: seq<(string, bool)>): Ended
    decreases |virtuals|
  {
    if virtuals == [] then Ended(f, r, true)
    else
      var (name, both) := virtuals[0];
      if name in fault.virtuals then Ended(f, r, false)
      else
        var (f1, r1) := Registering(f, r, name, both);
        if name in fault.imports then Ended(f1, r1, false)
        else
          var (f2, r2) := Importing(p, e, f1, r1, name, both);
          Moves(p, e, fault, f2, r2, virtuals[1..])
  }

  predicate Saves(s: Scene, f: Files, p: Private) {
    Names'(s, IsRegistered) != [] || CarriedKeys(f.github, p.github) != []
  }

  /** The registrations, the carried settings and the team states, saved together. */
  function SavedFiles(s: Scene, f: Files, p: Private): Files {
    f.(domains := DomainsAt(s, |s.list|), github := WithCarried(f.github, p.github), origins := f.origins + Carried(s))
  }

  function SavedReport(s: Scene, f: Files, p: Private, r: Report): Report {
    r.(registered := r.registered + Names'(s, IsRegistered), originsCopied := r.originsCopied + Names'(s, IsCarried),
       githubCarried := r.githubCarried + CarriedKeys(f.github, p.github))
  }

  /** The rename, when this merge left no conflict and no engram behind. */
  function Closing(s: Scene, fault: Fault, before: Report, f: Files, r: Report): Ended {
    var inside := Names'(s, IsInside);
    if |r.conflicts| + |r.notMoved| != |before.conflicts| + |before.notMoved| then Ended(f, r.(kept := r.kept + inside), true)
    else if fault.rename then Ended(f, r, false)
    else Ended(f.(privateThere := false), r.(renamed := true, kept := r.kept + inside), true)
  }

  predicate SyncFails(s: Scene, fault: Fault) {
    exists name | name in Names'(s, IsRegistered) :: name in fault.sync
  }

  /** What a merge leaves, step by step. */
  function Merge(w: World, f: Files, p: Private, e: Engine, fault: Fault, r: Report): Ended {
    if fault.refused then Ended(f, r, false)
    else
      var s := SceneOf(w, f, p);
      var r1 := Sorted(s, r);
      if Saves(s, f, p) && fault.save then Ended(f.(origins := f.origins + (Carried(s) * fault.removes)), r1, false)
      else
        var f2, r2 := SavedFiles(s, f, p), SavedReport(s, f, p, r1);
        if SyncFails(s, fault) then Ended(f2, r2, false)
        else
          var moved := Moves(p, e, fault, f2, r2, Virtuals(s, |s.list|));
          if !moved.ok then moved else Closing(s, fault, r, moved.files, moved.report)
  }

  // ----- safety, whatever fails

  /** Everything this machine had is as it was. */
  ghost predicate Kept(f: Files, g: Files) {
    && (forall n | n in f.domains :: n in g.domains && g.domains[n] == f.domains[n])
    && (forall key :: Setting(f.github, key).Some? ==> Setting(g.github, key) == Setting(f.github, key))
    && f.origins <= g.origins
    && forall n, path | n in f.engrams && path in f.engrams[n] ::
         n in g.engrams && path in g.engrams[n] && g.engrams[n][path] == f.engrams[n][path]
  }

  lemma KeptOn(a: Files, b: Files, c: Files)
    requires Kept(a, b) && Kept(b, c)
    ensures Kept(a, c)
  {
    hide Setting;
  }

  lemma ImportingKeeps(p: Private, e: Engine, f: Files, r: Report, name: string, both: bool)
    ensures Kept(f, Importing(p, e, f, r, name, both).0)
  {
    hide Imported, Setting;
    var here, there := EngramsOf(f.engrams, name), ExportOf(p, name);
    forall path | path in here
      ensures path in Imported(e, here, there) && Imported(e, here, there)[path] == here[path]
    {
      StoredIsImported(e, here, there);
      StoredKeeps(e, here, there, |there|, path);
    }
  }

  lemma RegisteringKeeps(f: Files, r: Report, name: string, both: bool)
    ensures Kept(f, Registering(f, r, name, both).0)
  {
    hide Setting;
  }

  lemma {:induction false} MovesKeep(p: Private, e: Engine, fault: Fault, f: Files, r: Report, virtuals: seq<(string, bool)>)
    ensures Kept(f, Moves(p, e, fault, f, r, virtuals).files)
    decreases |virtuals|
  {
    hide Kept, Registering, Importing;
    KeptSelf(f);
    if virtuals != [] {
      var (name, both) := virtuals[0];
      var (f1, r1) := Registering(f, r, name, both);
      RegisteringKeeps(f, r, name, both);
      var (f2, r2) := Importing(p, e, f1, r1, name, both);
      ImportingKeeps(p, e, f1, r1, name, both);
      KeptOn(f, f1, f2);
      MovesKeep(p, e, fault, f2, r2, virtuals[1..]);
      KeptOn(f, f2, Moves(p, e, fault, f2, r2, virtuals[1..]).files);
    }
  }

  lemma KeptSelf(f: Files)
    ensures Kept(f, f)
  {}

  lemma SavedKeeps(s: Scene, f: Files, p: Private)
    requires s.base == f.domains
    ensures Kept(f, SavedFiles(s, f, p))
  {
    hide DomainsAt, Carried, Setting, WithCarried;
    forall n | n in f.domains
      ensures n in DomainsAt(s, |s.list|) && DomainsAt(s, |s.list|)[n] == f.domains[n]
    {
      EntriesStay(s, |s.list|, n);
    }
    forall key | Setting(f.github, key).Some?
      ensures Setting(WithCarried(f.github, p.github), key) == Setting(f.github, key)
    {
      GithubKeys(f.github, p.github, key);
    }
  }

  /** Wherever the merge stops, no entry, no set key, no team state and no engram of this machine changes. */
  lemma MergeKeeps(w: World, f: Files, p: Private, e: Engine, fault: Fault, r: Report)
    ensures Kept(f, Merge(w, f, p, e, fault, r).files)
  {
    hide Kept, Moves, SavedFiles, Saves, SyncFails, Virtuals;
    var s := SceneOf(w, f, p);
    KeptSelf(f);
    KeptWithOrigins(f, Carried(s) * fault.removes);
    SavedKeeps(s, f, p);
    var f2, r2 := SavedFiles(s, f, p), SavedReport(s, f, p, Sorted(s, r));
    MovesKeep(p, e, fault, f2, r2, Virtuals(s, |s.list|));
    var moved := Moves(p, e, fault, f2, r2, Virtuals(s, |s.list|));
    KeptOn(f, f2, moved.files);
    KeptClosed(f, moved.files);
  }

  lemma KeptWithOrigins(f: Files, more: set<string>)
    ensures Kept(f, f.(origins := f.origins + more))
  {}

  lemma KeptClosed(f: Files, g: Files)
    requires Kept(f, g)
    ensures Kept(f, g.(privateThere := false))
  {
    hide Setting;
  }

  /** A save that fails leaves the config as it was, and of the team states copied only those that could not be removed. */
  lemma SaveFailure(w: World, f: Files, p: Private, e: Engine, fault: Fault, r: Report)
    requires !fault.refused && fault.save && Saves(SceneOf(w, f, p), f, p)
    ensures var end := Merge(w, f, p, e, fault, r);
            && !end.ok && end.files.(origins := f.origins) == f
            && (end.files == f <==> forall name | name in Carried(SceneOf(w, f, p)) && name in fault.removes :: name in f.origins)
  {
    hide Carried, Saves;
    var s := SceneOf(w, f, p);
    var left := f.origins + (Carried(s) * fault.removes);
    if forall name | name in Carried(s) && name in fault.removes :: name in f.origins {
      assert left == f.origins;
    } else {
      var name :| name in Carried(s) && name in fault.removes && name !in f.origins;
      assert name in left;
    }
  }

  // ----- folders

  lemma {:induction false} MovesKeepRoots(w: World, p: Private, e: Engine, fault: Fault, f: Files, r: Report, virtuals: seq<(string, bool)>)
    requires DistinctRoots(w, f.domains)
    ensures DistinctRoots(w, Moves(p, e, fault, f, r, virtuals).files.domains)
    decreases |virtuals|
  {
    hide CanonicalRoot, Importing;
    if virtuals != [] {
      var (name, both) := virtuals[0];
      var (f1, r1) := Registering(f, r, name, both);
      var (f2, r2) := Importing(p, e, f1, r1, name, both);
      assert f2.domains == f1.domains by { ImportingDomains(p, e, f1, r1, name, both); }
      assert DistinctRoots(w, f1.domains);
      hide DistinctRoots, Registering;
      MovesKeepRoots(w, p, e, fault, f2, r2, virtuals[1..]);
    }
  }

  lemma ImportingDomains(p: Private, e: Engine, f: Files, r: Report, name: string, both: bool)
    ensures Importing(p, e, f, r, name, both).0.domains == f.domains
    ensures Importing(p, e, f, r, name, both).1.registered == r.registered
  {}

  /** File domains with distinct folders keep distinct folders, wherever the merge stops. */
  lemma MergeKeepsRootsDistinct(w: World, f: Files, p: Private, e: Engine, fault: Fault, r: Report)
    requires DistinctRoots(w, f.domains)
    ensures DistinctRoots(w, Merge(w, f, p, e, fault, r).files.domains)
  {
    hide DistinctRoots, Moves, DomainsAt, Virtuals, Saves, SyncFails, Carried;
    var s := SceneOf(w, f, p);
    RootsStayDistinct(s, |s.list|);
    var f2, r2 := SavedFiles(s, f, p), SavedReport(s, f, p, Sorted(s, r));
    MovesKeepRoots(w, p, e, fault, f2, r2, Virtuals(s, |s.list|));
  }

  // ----- the rename gate

  lemma {:induction false} MovesReport(p: Private, e: Engine, fault: Fault, f: Files, r: Report, virtuals: seq<(string, bool)>)
    ensures var end := Moves(p, e, fault, f, r, virtuals).report;
            end.conflicts == r.conflicts && r.notMoved <= end.notMoved && end.renamed == r.renamed
    ensures Moves(p, e, fault, f, r, virtuals).files.privateThere == f.privateThere
    decreases |virtuals|
  {
    hide Paths, Differing, Imported;
    if virtuals != [] {
      var (name, both) := virtuals[0];
      var (f1, r1) := Registering(f, r, name, both);
      var (f2, r2) := Importing(p, e, f1, r1, name, both);
      MovesReport(p, e, fault, f2, r2, virtuals[1..]);
    }
  }

  /** The private folder is renamed exactly when the merge ends well, no private domain came to a conflict and every engram it tried to move was taken. */
  lemma RenamedByOutcome(w: World, f: Files, p: Private, e: Engine, fault: Fault, r: Report)
    requires f.privateThere && !r.renamed
    ensures var end := Merge(w, f, p, e, fault, r); var s := SceneOf(w, f, p);
            && (end.files.privateThere <==> !end.report.renamed)
            && (end.report.renamed <==> end.ok && (forall k: nat | k < |s.list| :: !IsConflict(OutcomeAt(s, k))) && end.report.notMoved == r.notMoved)
  {
    hide Moves, OutcomeAt, DomainsAt, Virtuals, Saves, SyncFails, Carried, IsConflict, WithCarried, CarriedKeys, Names;
    var s := SceneOf(w, f, p);
    NoConflicts(s);
    var f2, r2 := SavedFiles(s, f, p), SavedReport(s, f, p, Sorted(s, r));
    MovesReport(p, e, fault, f2, r2, Virtuals(s, |s.list|));
    var moved := Moves(p, e, fault, f2, r2, Virtuals(s, |s.list|));
    assert |moved.report.conflicts| == |r.conflicts| + |Names'(s, IsConflict)|;
    assert |moved.report.notMoved| == |r.notMoved| ==> moved.report.notMoved == r.notMoved;
  }

  lemma NoConflicts(s: Scene)
    ensures Names'(s, IsConflict) == [] <==> forall k: nat | k < |s.list| :: !IsConflict(OutcomeAt(s, k))
  {
    hide OutcomeAt, IsConflict, Names;
    var names := Names'(s, IsConflict);
    if names != [] { NamesAre(s, IsConflict, |s.list|, names[0]); }
    if k: nat :| k < |s.list| && IsConflict(OutcomeAt(s, k)) {
      NamesAre(s, IsConflict, |s.list|, s.list[k].0);
    }
  }

  // ----- no engram is lost

  function NewOnes<T>(before: seq<T>, after: seq<T>): seq<T> {
    if |before| <= |after| then after[|before|..] else []
  }

  /** What the merge adds to the report on one virtual domain: exact counts, and nothing when there is nothing to say. */
  ghost predicate Told(e: Engine, here: Engrams, there: Export, name: string, both: bool, r: Report, q: Report) {
    && (name in NewOnes(r.notMoved, q.notMoved) <==> Paths(e, here, there, Warned, |there|) != [])
    && (forall n: nat :: (name, n) in NewOnes(r.keptBoth, q.keptBoth) <==> n == |Differing(e, here, there)| && n > 0)
    && (forall n: nat :: (name, n) in NewOnes(r.imported, q.imported)
          <==> n == |Paths(e, here, there, Written, |there|)| && (n > 0 || !both))
  }

  ghost predicate Untold(name: string, r: Report, q: Report) {
    && name !in NewOnes(r.notMoved, q.notMoved)
    && (forall n: nat :: (name, n) !in NewOnes(r.keptBoth, q.keptBoth))
    && (forall n: nat :: (name, n) !in NewOnes(r.imported, q.imported))
  }

  predicate Extends(r: Report, q: Report) {
    r.notMoved <= q.notMoved && r.keptBoth <= q.keptBoth && r.imported <= q.imported
  }

  lemma NewOnesJoin<T>(a: seq<T>, b: seq<T>, c: seq<T>, x: T)
    requires a <= b <= c
    ensures x in NewOnes(a, c) <==> x in NewOnes(a, b) || x in NewOnes(b, c)
  {
    assert c[|a|..] == b[|a|..] + c[|b|..];
  }

  lemma TellsOn(name: string, r: Report, q: Report, t: Report)
    requires Extends(r, q) && Extends(q, t)
    ensures Extends(r, t)
    ensures name in NewOnes(r.notMoved, t.notMoved) <==> name in NewOnes(r.notMoved, q.notMoved) || name in NewOnes(q.notMoved, t.notMoved)
    ensures forall n: nat :: (name, n) in NewOnes(r.keptBoth, t.keptBoth) <==> (name, n) in NewOnes(r.keptBoth, q.keptBoth) || (name, n) in NewOnes(q.keptBoth, t.keptBoth)
    ensures forall n: nat :: (name, n) in NewOnes(r.imported, t.imported) <==> (name, n) in NewOnes(r.imported, q.imported) || (name, n) in NewOnes(q.imported, t.imported)
  {
    hide NewOnes;
    NewOnesJoin(r.notMoved, q.notMoved, t.notMoved, name);
    forall n: nat
      ensures (name, n) in NewOnes(r.keptBoth, t.keptBoth) <==> (name, n) in NewOnes(r.keptBoth, q.keptBoth) || (name, n) in NewOnes(q.keptBoth, t.keptBoth)
      ensures (name, n) in NewOnes(r.imported, t.imported) <==> (name, n) in NewOnes(r.imported, q.imported) || (name, n) in NewOnes(q.imported, t.imported)
    {
      NewOnesJoin(r.keptBoth, q.keptBoth, t.keptBoth, (name, n));
      NewOnesJoin(r.imported, q.imported, t.imported, (name, n));
    }
  }

  lemma OneNew<T>(before: seq<T>, x: T, more: bool)
    ensures NewOnes(before, if more then before + [x] else before) == if more then [x] else []
  {}

  lemma ImportingTells(p: Private, e: Engine, f: Files, r: Report, name: string, both: bool)
    ensures var (g, q) := Importing(p, e, f, r, name, both); var here, there := EngramsOf(f.engrams, name), ExportOf(p, name);
            Extends(r, q) && Told(e, here, there, name, both, r, q) && EngramsOf(g.engrams, name) == Imported(e, here, there)
  {
    hide Paths, Differing, Imported, NewOnes, EngramsOf, ExportOf;
    ImportingEngrams(p, e, f, r, name, both, name);
    ImportingReports(p, e, f, r, name, both);
  }

  lemma ImportingReports(p: Private, e: Engine, f: Files, r: Report, name: string, both: bool)
    ensures var (g, q) := Importing(p, e, f, r, name, both); var here, there := EngramsOf(f.engrams, name), ExportOf(p, name);
            var written, differing := |Paths(e, here, there, Written, |there|)|, |Differing(e, here, there)|;
            && Extends(r, q)
            && NewOnes(r.notMoved, q.notMoved) == (if Paths(e, here, there, Warned, |there|) != [] then [name] else [])
            && NewOnes(r.keptBoth, q.keptBoth) == (if differing > 0 then [(name, differing)] else [])
            && NewOnes(r.imported, q.imported) == (if written > 0 || !both then [(name, written)] else [])
  {
    hide Paths, Differing, Imported, NewOnes, EngramsOf, ExportOf;
    var here, there := EngramsOf(f.engrams, name), ExportOf(p, name);
    var written, differing := |Paths(e, here, there, Written, |there|)|, |Differing(e, here, there)|;
    OneNew(r.notMoved, name, Paths(e, here, there, Warned, |there|) != []);
    OneNew(r.keptBoth, (name, differing), differing > 0);
    OneNew(r.imported, (name, written), written > 0 || !both);
  }

  lemma ImportingEngrams(p: Private, e: Engine, f: Files, r: Report, name: string, both: bool, other: string)
    ensures var g := Importing(p, e, f, r, name, both).0;
            EngramsOf(g.engrams, other) == if other == name then Imported(e, EngramsOf(f.engrams, name), ExportOf(p, name)) else EngramsOf(f.engrams, other)
  {
    hide Paths, Differing, Imported, ExportOf;
  }

  lemma ImportingLeaves(p: Private, e: Engine, f: Files, r: Report, name: string, both: bool, other: string)
    requires other != name
    ensures var (g, q) := Importing(p, e, f, r, name, both); Untold(other, r, q) && EngramsOf(g.engrams, other) == EngramsOf(f.engrams, other)
  {
    hide Paths, Differing, Imported, NewOnes, EngramsOf, ExportOf;
    ImportingEngrams(p, e, f, r, name, both, other);
    ImportingReports(p, e, f, r, name, both);
  }

  lemma RegisteringTells(f: Files, r: Report, name: string, both: bool)
    ensures var (g, q) := Registering(f, r, name, both);
            r.keptBoth == q.keptBoth && r.notMoved == q.notMoved && r.imported == q.imported && g.engrams == f.engrams
  {}

  predicate NamesOnce(virtuals: seq<(string, bool)>) {
    forall i, j | 0 <= i < j < |virtuals| :: virtuals[i].0 != virtuals[j].0
  }

  predicate InVirtuals(virtuals: seq<(string, bool)>, name: string) {
    exists i | 0 <= i < |virtuals| :: virtuals[i].0 == name
  }

  /** The moves leave every virtual domain as its import does and tell of each once. */
  lemma {:induction false} MovesTell(p: Private, e: Engine, fault: Fault, f: Files, r: Report, virtuals: seq<(string, bool)>, name: string, both: bool)
    requires Moves(p, e, fault, f, r, virtuals).ok && NamesOnce(virtuals)
    ensures var end := Moves(p, e, fault, f, r, virtuals); var here, there := EngramsOf(f.engrams, name), ExportOf(p, name);
            && Extends(r, end.report)
            && ((name, both) in virtuals ==> EngramsOf(end.files.engrams, name) == Imported(e, here, there) && Told(e, here, there, name, both, r, end.report))
            && (!InVirtuals(virtuals, name) ==> EngramsOf(end.files.engrams, name) == here && Untold(name, r, end.report))
    decreases |virtuals|
  {
    hide Told, Untold, Extends, Registering, Importing, ExportOf, Imported;
    if virtuals == [] {
      NothingTold(name, r);
    } else {
      var (first, fboth) := virtuals[0];
      var (f1, r1) := Registering(f, r, first, fboth);
      RegisteringTells(f, r, first, fboth);
      var (f2, r2) := Importing(p, e, f1, r1, first, fboth);
      ImportingTells(p, e, f1, r1, first, fboth);
      if first != name { ImportingLeaves(p, e, f1, r1, first, fboth, name); }
      MovesTell(p, e, fault, f2, r2, virtuals[1..], name, both);
      var q := Moves(p, e, fault, f2, r2, virtuals[1..]).report;
      RegisteredSame(r, r1, r2, q, e, EngramsOf(f.engrams, name), ExportOf(p, name), name, both);
      assert forall i | 0 <= i < |virtuals[1..]| :: virtuals[1..][i] == virtuals[i + 1];
      if first == name {
        assert !InVirtuals(virtuals[1..], name);
        if (name, both) in virtuals { assert virtuals[0] == (name, both); }
      }
      InRest(virtuals, name);
    }
  }

  lemma InRest(virtuals: seq<(string, bool)>, name: string)
    requires virtuals != []
    ensures InVirtuals(virtuals, name) <==> virtuals[0].0 == name || InVirtuals(virtuals[1..], name)
  {
    if i :| 0 < i < |virtuals| && virtuals[i].0 == name { assert virtuals[1..][i - 1].0 == name; }
  }

  lemma NothingTold(name: string, r: Report)
    ensures Extends(r, r) && Untold(name, r, r)
  {}

  /** One domain after another: what is told of a name is told once. */
  lemma RegisteredSame(r: Report, r1: Report, r2: Report, q: Report, e: Engine, here: Engrams, there: Export, name: string, both: bool)
    requires r.keptBoth == r1.keptBoth && r.notMoved == r1.notMoved && r.imported == r1.imported && Extends(r1, r2) && Extends(r2, q)
    ensures Extends(r, q)
    ensures Untold(name, r1, r2) && Untold(name, r2, q) ==> Untold(name, r, q)
    ensures Told(e, here, there, name, both, r1, r2) && Untold(name, r2, q) ==> Told(e, here, there, name, both, r, q)
    ensures Untold(name, r1, r2) && Told(e, here, there, name, both, r2, q) ==> Told(e, here, there, name, both, r, q)
  {
    hide NewOnes, Paths, Differing;
    TellsOn(name, r1, r2, q);
  }

  lemma {:induction false} VirtualsAre(s: Scene, n: nat, k: nat)
    requires k < n <= |s.list|
    ensures OutcomeAt(s, k).NewVirtual? ==> (s.list[k].0, false) in Virtuals(s, n)
    ensures OutcomeAt(s, k).SameVirtual? ==> (s.list[k].0, true) in Virtuals(s, n)
  {
    hide OutcomeAt;
    if k < n - 1 { VirtualsAre(s, n - 1, k); }
  }

  lemma {:induction false} VirtualsFrom(s: Scene, n: nat, i: nat) returns (k: nat)
    requires n <= |s.list| && i < |Virtuals(s, n)|
    ensures k < n && s.list[k].0 == Virtuals(s, n)[i].0
  {
    hide OutcomeAt;
    if i < |Virtuals(s, n - 1)| { k := VirtualsFrom(s, n - 1, i); } else { k := n - 1; }
  }

  lemma {:induction false} VirtualsOnce(s: Scene, n: nat)
    requires n <= |s.list| && Listing(s.list)
    ensures NamesOnce(Virtuals(s, n))
  {
    hide OutcomeAt;
    if n > 0 {
      VirtualsOnce(s, n - 1);
      var before := Virtuals(s, n - 1);
      forall i | 0 <= i < |before|
        ensures before[i].0 != s.list[n - 1].0
      {
        var k := VirtualsFrom(s, n - 1, i);
      }
    }
  }

  /** After a merge that ends well, every private virtual domain it took is what the import of its engrams into this machine's copy leaves: each engram is here with its text, or among the domain's differing ones, whose exact number is reported as kept on both sides, or among those the import warned of, and then the domain is reported as not moved. */
  lemma EngramsAccounted(w: World, f: Files, p: Private, e: Engine, fault: Fault, r: Report, k: nat, j: nat)
    requires Listing(p.list) && k < |p.list| && Merge(w, f, p, e, fault, r).ok
    requires var o := OutcomeAt(SceneOf(w, f, p), k); o.NewVirtual? || o.SameVirtual?
    requires Distinct(ExportOf(p, p.list[k].0)) && j < |ExportOf(p, p.list[k].0)|
    ensures var end := Merge(w, f, p, e, fault, r); var name := p.list[k].0;
            var here, there, after := EngramsOf(f.engrams, name), ExportOf(p, name), EngramsOf(end.files.engrams, name);
            && after == Imported(e, here, there)
            && Told(e, here, there, name, OutcomeAt(SceneOf(w, f, p), k).SameVirtual?, r, end.report)
            && (|| (there[j].0 in after && after[there[j].0] == there[j].1)
                || (there[j].0 in Differing(e, here, there) && (name, |Differing(e, here, there)|) in NewOnes(r.keptBoth, end.report.keptBoth))
                || (there[j].0 in Paths(e, here, there, Warned, |there|) && name in NewOnes(r.notMoved, end.report.notMoved)))
  {
    hide Moves, OutcomeAt, DomainsAt, Virtuals, Saves, SyncFails, Carried, WithCarried, CarriedKeys, Names, EngramsOf, ExportOf, Imported, Paths, Differing,
         NewOnes, FateAt;
    var s := SceneOf(w, f, p);
    var name, both := p.list[k].0, OutcomeAt(s, k).SameVirtual?;
    VirtualsAre(s, |s.list|, k);
    VirtualsOnce(s, |s.list|);
    var f2, r2 := SavedFiles(s, f, p), SavedReport(s, f, p, Sorted(s, r));
    MovesTell(p, e, fault, f2, r2, Virtuals(s, |s.list|), name, both);
    ImportAccounts(e, EngramsOf(f.engrams, name), ExportOf(p, name), j);
  }

  // ----- the same merge again

  predicate AddsVirtual(virtuals: seq<(string, bool)>, n: string) {
    (n, false) in virtuals
  }

  lemma {:induction false} MovesDomains(p: Private, e: Engine, fault: Fault, f: Files, r: Report, virtuals: seq<(string, bool)>)
    requires Moves(p, e, fault, f, r, virtuals).ok
    ensures var g := Moves(p, e, fault, f, r, virtuals).files.domains;
            forall n :: (n in g <==> n in f.domains || AddsVirtual(virtuals, n))
              && (n in g ==> g[n] == if n in f.domains then f.domains[n] else VIRTUAL_DOMAIN)
    decreases |virtuals|
  {
    hide Importing;
    if virtuals != [] {
      var (name, both) := virtuals[0];
      var (f1, r1) := Registering(f, r, name, both);
      var (f2, r2) := Importing(p, e, f1, r1, name, both);
      ImportingDomains(p, e, f1, r1, name, both);
      MovesDomains(p, e, fault, f2, r2, virtuals[1..]);
      assert forall n :: AddsVirtual(virtuals, n) <==> (name == n && !both) || AddsVirtual(virtuals[1..], n);
    }
  }

  lemma {:induction false} AddsNewVirtuals(s: Scene, n: nat, name: string)
    requires n <= |s.list|
    ensures AddsVirtual(Virtuals(s, n), name) <==> exists k: nat :: k < n && OutcomeAt(s, k) == NewVirtual && s.list[k].0 == name
  {
    hide OutcomeAt;
    if n > 0 { AddsNewVirtuals(s, n - 1, name); }
  }

  /** The config a merge that ends well leaves. */
  lemma MergedDomains(w: World, f: Files, p: Private, e: Engine, fault: Fault, r: Report)
    requires Listing(p.list) && Merge(w, f, p, e, fault, r).ok
    ensures var s := SceneOf(w, f, p); var end := Merge(w, f, p, e, fault, r).files;
            end.domains == Merged(s) && end.github == WithCarried(f.github, p.github) && end.origins == Again(s).have
  {
    hide Moves, OutcomeAt, DomainsAt, Virtuals, Saves, SyncFails, Carried, WithCarried, CarriedKeys, Names, AddsVirtual, NewVirtuals;
    var s := SceneOf(w, f, p);
    var f2, r2 := SavedFiles(s, f, p), SavedReport(s, f, p, Sorted(s, r));
    var virtuals := Virtuals(s, |s.list|);
    var moved := Moves(p, e, fault, f2, r2, virtuals);
    MovesDomains(p, e, fault, f2, r2, virtuals);
    MovesSettings(p, e, fault, f2, r2, virtuals);
    MergedIs(s, moved.files.domains);
  }

  lemma MergedIs(s: Scene, g: map<string, Entry>)
    requires Listing(s.list)
    requires var d := DomainsAt(s, |s.list|); var virtuals := Virtuals(s, |s.list|);
             forall n :: (n in g <==> n in d || AddsVirtual(virtuals, n))
               && (n in g ==> g[n] == if n in d then d[n] else VIRTUAL_DOMAIN)
    ensures g == Merged(s)
  {
    hide OutcomeAt, DomainsAt, Virtuals, AddsVirtual;
    forall n
      ensures n in Merged(s) <==> n in g
      ensures n in g ==> Merged(s)[n] == g[n]
    {
      AddsNewVirtuals(s, |s.list|, n);
      if n in DomainsAt(s, |s.list|) { MergedKeeps(s, |s.list|, n); }
    }
  }

  lemma {:induction false} MovesSettings(p: Private, e: Engine, fault: Fault, f: Files, r: Report, virtuals: seq<(string, bool)>)
    ensures var g := Moves(p, e, fault, f, r, virtuals).files; g.github == f.github && g.origins == f.origins
    decreases |virtuals|
  {
    hide Paths, Differing, Imported;
    if virtuals != [] {
      var (name, both) := virtuals[0];
      var (f1, r1) := Registering(f, r, name, both);
      var (f2, r2) := Importing(p, e, f1, r1, name, both);
      MovesSettings(p, e, fault, f2, r2, virtuals[1..]);
    }
  }

  /** A repeat on the unchanged result registers no domain, saves nothing and carries no team state exactly when every name the merge refused is refused still. */
  lemma RepeatSavesNothing(w: World, f: Files, p: Private, e: Engine, fault: Fault, r: Report)
    requires Listing(p.list) && Merge(w, f, p, e, fault, r).ok
    ensures var g := Merge(w, f, p, e, fault, r).files; var again := SceneOf(w, g, p);
            !Saves(again, g, p) && Carried(again) == {} && NewVirtuals(again) == {}
            <==> AllRefusedStill(SceneOf(w, f, p), |p.list|)
  {
    hide Merge, OutcomeAt, AllRefusedStill, DomainsAt, WithCarried, CarriedKeys, Merged;
    var s, g := SceneOf(w, f, p), Merge(w, f, p, e, fault, r).files;
    MergedDomains(w, f, p, e, fault, r);
    RepeatRegistersNothing(s, |s.list|);
    GithubAgain(f.github, p.github);
    assert SceneOf(w, g, p) == Again(s);
    NoneEnter(Again(s));
  }

  lemma NoneEnter(s: Scene)
    ensures (forall k: nat | k < |s.list| :: !Enters(OutcomeAt(s, k)))
       <==> Names'(s, IsRegistered) == [] && Carried(s) == {} && NewVirtuals(s) == {}
  {
    hide OutcomeAt, Names;
    var names := Names'(s, IsRegistered);
    if names != [] { NamesAre(s, IsRegistered, |s.list|, names[0]); }
    if k: nat :| k < |s.list| && Enters(OutcomeAt(s, k)) {
      if OutcomeAt(s, k).Registered? {
        NamesAre(s, IsRegistered, |s.list|, s.list[k].0);
      } else {
        assert s.list[k].0 in NewVirtuals(s);
      }
    }
  }
}
