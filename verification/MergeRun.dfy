/** The merge itself: the report it fills, the config it edits and the files it writes, in place. */
module MergeRun {
  import opened Options
  import opened DesktopState
  import opened GithubSettings
  import opened VirtualImport
  import opened DesktopMerge

  class MergeReport {
    var registered: seq<string>
    var already: seq<string>
    var kept: seq<string>
    var conflicts: seq<string>
    var notMoved: seq<string>
    var originsCopied: seq<string>
    var githubCarried: seq<Key>
    var imported: seq<(string, nat)>
    var keptBoth: seq<(string, nat)>
    var renamed: bool

    function Contents(): Report
      reads this
    {
      Report(registered, already, kept, conflicts, notMoved, originsCopied, githubCarried, imported, keptBoth, renamed)
    }
  }

  class Machine {
    var domains: map<string, Entry>
    var github: Option<Github>
    var origins: set<string>
    var engrams: map<string, Engrams>
    var privateThere: bool

    function Contents(): Files
      reads this
    {
      Files(domains, github, origins, engrams, privateThere)
    }

    /** Bring a team domain's state here: `Ok` says whether there was one. */
    method CarryTeamState(w: World, team: set<string>, name: string) returns (r: Result<bool>)
      modifies this`origins
      ensures r.Err? <==> name in team && (!w.originsDir || name in old(origins) || name in w.copyFails)
      ensures r.Ok? ==> r.value == (name in team)
      ensures origins == if r == Ok(true) then old(origins) + {name} else old(origins)
    {
      if name !in team { return Ok(false); }
      if !w.originsDir { return Err; }
      if name in origins { return Err; }
      if name in w.copyFails { return Err; }
      origins := origins + {name};
      return Ok(true);
    }

    method RegisterVirtual(name: string, both: bool, report: MergeReport)
      modifies this`domains, report`registered
      ensures (Contents(), report.Contents()) == Registering(old(Contents()), old(report.Contents()), name, both)
    {
      if both { return; }
      if name !in domains { domains := domains[name := VIRTUAL_DOMAIN]; }
      report.registered := report.registered + [name];
    }

    method ImportVirtual(p: Private, e: Engine, name: string, both: bool, report: MergeReport)
      modifies this`engrams, report`imported, report`notMoved, report`keptBoth
      ensures (Contents(), report.Contents()) == Importing(p, e, old(Contents()), old(report.Contents()), name, both)
    {
      hide Paths, Differing, DifferingIn, Imported, EngramsOf, ExportOf;
      var here, there := EngramsOf(engrams, name), ExportOf(p, name);
      var after, written, collisions, warnings := ImportDomain(e, here, there);
      engrams := engrams[name := after];
      if written > 0 || !both { report.imported := report.imported + [(name, written)]; }
      if warnings > 0 { report.notMoved := report.notMoved + [name]; }
      var differing := CountDiffering(after, there, collisions);
      DifferingIs(e, here, there);
      if differing > 0 { report.keptBoth := report.keptBoth + [(name, differing)]; }
    }

    /** Move the private engrams of the virtual domains. */
    method MoveVirtuals(p: Private, e: Engine, fault: Fault, virtuals: seq<(string, bool)>, report: MergeReport) returns (ok: bool)
      modifies this`domains, this`engrams, report`registered, report`imported, report`notMoved, report`keptBoth
      ensures Ended(Contents(), report.Contents(), ok) == Moves(p, e, fault, old(Contents()), old(report.Contents()), virtuals)
    {
      hide Registering, Importing, Moves;
      ghost var end := Moves(p, e, fault, Contents(), report.Contents(), virtuals);
      assert virtuals[0..] == virtuals;
      for k := 0 to |virtuals|
        invariant Moves(p, e, fault, Contents(), report.Contents(), virtuals[k..]) == end
      {
        var name, both := virtuals[k].0, virtuals[k].1;
        MovesNext(p, e, fault, Contents(), report.Contents(), virtuals, k);
        if name in fault.virtuals { return false; }
        RegisterVirtual(name, both, report);
        if name in fault.imports { return false; }
        ImportVirtual(p, e, name, both, report);
      }
      MovesDone(p, e, fault, Contents(), report.Contents(), virtuals);
      return true;
    }
  }

  lemma MovesNext(p: Private, e: Engine, fault: Fault, f: Files, r: Report, virtuals: seq<(string, bool)>, k: nat)
    requires k < |virtuals|
    ensures Moves(p, e, fault, f, r, virtuals[k..])
         == var (name, both) := virtuals[k];
            if name in fault.virtuals then Ended(f, r, false)
            else
              var (f1, r1) := Registering(f, r, name, both);
              if name in fault.imports then Ended(f1, r1, false)
              else
                var (f2, r2) := Importing(p, e, f1, r1, name, both);
                Moves(p, e, fault, f2, r2, virtuals[k + 1..])
  {
    hide Registering, Importing;
    assert virtuals[k..][0] == virtuals[k] && virtuals[k..][1..] == virtuals[k + 1..];
  }

  lemma MovesDone(p: Private, e: Engine, fault: Fault, f: Files, r: Report, virtuals: seq<(string, bool)>)
    ensures Moves(p, e, fault, f, r, virtuals[|virtuals|..]) == Ended(f, r, true)
  {
    hide Registering, Importing;
  }

  // ----- sorting the private domains

  /** The lists the loop fills. */
  datatype Lists = Lists(
    registered: seq<string>, carried: seq<string>, inside: seq<string>, virtuals: seq<(string, bool)>,
    already: seq<string>, kept: seq<string>, conflicts: seq<string>)

  function ListsAt(s: Scene, n: nat): Lists
    requires n <= |s.list|
  {
    Lists(Names(s, IsRegistered, n), Names(s, IsCarried, n), Names(s, IsInside, n), Virtuals(s, n),
          Names(s, IsAlready, n), Names(s, IsKept, n), Names(s, IsConflict, n))
  }

  function Put(l: Lists, o: Outcome, name: string): Lists {
    match o
    case Elsewhere => l.(kept := l.kept + [name])
    case KeptMissing => l.(kept := l.kept + [name])
    case Taken => l.(conflicts := l.conflicts + [name])
    case Unplaced => l.(conflicts := l.conflicts + [name])
    case NoTeamState => l.(conflicts := l.conflicts + [name])
    case Clash => l.(conflicts := l.conflicts + [name])
    case NewVirtual => l.(virtuals := l.virtuals + [(name, false)])
    case SameVirtual => l.(virtuals := l.virtuals + [(name, true)])
    case Registered(carried) => l.(registered := l.registered + [name], carried := if carried then l.carried + [name] else l.carried)
    case Already => l.(already := l.already + [name])
    case KeptInside => l.(inside := l.inside + [name])
  }

  lemma ListsNext(s: Scene, n: nat)
    requires n < |s.list|
    ensures ListsAt(s, n + 1) == Put(ListsAt(s, n), OutcomeAt(s, n), s.list[n].0)
  {
    hide OutcomeAt;
    var l, m := ListsAt(s, n), ListsAt(s, n + 1);
    assert l.registered + [] == l.registered && l.carried + [] == l.carried && l.inside + [] == l.inside;
    assert l.virtuals + [] == l.virtuals && l.already + [] == l.already && l.kept + [] == l.kept && l.conflicts + [] == l.conflicts;
  }

  function CarriedTo(s: Scene, n: nat): set<string>
    requires n <= |s.list|
  {
    set k: nat | k < n && OutcomeAt(s, k) == Registered(true) :: s.list[k].0
  }

  lemma CarriedNext(s: Scene, n: nat)
    requires n < |s.list| && Listing(s.list)
    ensures CarriedTo(s, n + 1) == if OutcomeAt(s, n) == Registered(true) then CarriedTo(s, n) + {s.list[n].0} else CarriedTo(s, n)
    ensures s.list[n].0 !in CarriedTo(s, n)
  {
    hide OutcomeAt;
    if s.list[n].0 in CarriedTo(s, n) {
      var k := CarriedNamed(s, n, s.list[n].0);
      SameIndex(s.list, k, n);
    }
  }

  lemma CarriedNamed(s: Scene, n: nat, name: string) returns (k: nat)
    requires n <= |s.list| && name in CarriedTo(s, n)
    ensures k < n && OutcomeAt(s, k) == Registered(true) && s.list[k].0 == name
  {
    hide OutcomeAt;
    k :| k < n && OutcomeAt(s, k) == Registered(true) && s.list[k].0 == name;
  }

  lemma CarriedAll(s: Scene)
    ensures CarriedTo(s, |s.list|) == Carried(s) && CarriedTo(s, 0) == {}
  {
    hide OutcomeAt;
  }

  lemma DomainsNext(s: Scene, n: nat)
    requires n < |s.list|
    ensures DomainsAt(s, 0) == s.base && ListsAt(s, 0) == Lists([], [], [], [], [], [], [])
    ensures DomainsAt(s, n + 1)
         == if OutcomeAt(s, n).Registered? then DomainsAt(s, n)[s.list[n].0 := s.list[n].1] else DomainsAt(s, n)
  {
    hide Judge;
  }

  lemma Start(s: Scene)
    ensures DomainsAt(s, 0) == s.base && ListsAt(s, 0) == Lists([], [], [], [], [], [], [])
  {}

  /** Judge one private domain against the config being edited, and carry its team state when it is registered. */
  method JudgeOne(s: Scene, k: nat, machine: Machine, file: GlobalConfig) returns (o: Outcome)
    requires k < |s.list| && Listing(s.list)
    requires file.domains == DomainsAt(s, k) && machine.origins == s.have + CarriedTo(s, k)
    modifies machine`origins, file`domains
    ensures o == OutcomeAt(s, k)
    ensures file.domains == DomainsAt(s, k + 1) && machine.origins == s.have + CarriedTo(s, k + 1)
  {
    hide NameTaken, RootedAt, UnusableRoot, DomainsAt, CarriedTo, Known, Carried;
    DomainsNext(s, k);
    CarriedNext(s, k);
    var w, name, entry := s.world, s.list[k].0, s.list[k].1;
    var unusable: Option<Unusable> := if entry.isVirtual then None else UnusableRoot(w, entry);
    if name !in file.domains {
      var root := CanonicalRoot(w, entry);
      if !entry.isVirtual && root.Some? && RootedAt(w, file.domains, root.value) { return Elsewhere; }
      if NameTaken(w, Known(w, s.base), name, entry) { return Taken; }
      if entry.isVirtual { return NewVirtual; }
      if unusable.Some? { return Unplaced; }
      var carried := Ok(false);
      if entry.team {
        carried := machine.CarryTeamState(w, s.team, name);
        if carried.Err? { return NoTeamState; }
      }
      file.domains := file.domains[name := entry];
      return Registered(carried.value);
    }
    var here := file.domains[name];
    if SameRegistration(w, here, entry) { return if entry.isVirtual then SameVirtual else Already; }
    if unusable.None? { return Clash; }
    return if unusable.value.Inside? then KeptInside else KeptMissing;
  }

  /** Take the union of both domain lists into `file`, filling the report and the lists of what is still to do. */
  method SortDomains(s: Scene, machine: Machine, file: GlobalConfig, report: MergeReport) returns (todo: Lists)
    requires Listing(s.list) && file.domains == s.base && machine.origins == s.have
    modifies machine`origins, file`domains, report`already, report`kept, report`conflicts
    ensures file.domains == DomainsAt(s, |s.list|) && machine.origins == s.have + Carried(s)
    ensures todo == ListsAt(s, |s.list|)
    ensures report.Contents() == Sorted(s, old(report.Contents()))
  {
    hide OutcomeAt, DomainsAt, CarriedTo, Carried, Judge, Names, Virtuals, Put;
    ghost var before := report.Contents();
    todo := Lists([], [], [], [], [], [], []);
    Start(s);
    CarriedAll(s);
    SortedStart(s, before);
    for k := 0 to |s.list|
      invariant file.domains == DomainsAt(s, k) && machine.origins == s.have + CarriedTo(s, k)
      invariant todo == ListsAt(s, k)
      invariant report.Contents() == before.(already := before.already + todo.already, kept := before.kept + todo.kept,
                                             conflicts := before.conflicts + todo.conflicts)
    {
      var o := JudgeOne(s, k, machine, file);
      ListsNext(s, k);
      PutAppends(todo, o, s.list[k].0, before);
      var name := s.list[k].0;
      todo := Put(todo, o, name);
      if IsConflict(o) { report.conflicts := report.conflicts + [name]; }
      if IsKept(o) { report.kept := report.kept + [name]; }
      if IsAlready(o) { report.already := report.already + [name]; }
    }
  }

  lemma SortedStart(s: Scene, r: Report)
    ensures r.(already := r.already + [], kept := r.kept + [], conflicts := r.conflicts + []) == r
  {}

  lemma PutAppends(l: Lists, o: Outcome, name: string, r: Report)
    ensures var m := Put(l, o, name);
            && r.already + m.already == (if IsAlready(o) then r.already + l.already + [name] else r.already + l.already)
            && r.kept + m.kept == (if IsKept(o) then r.kept + l.kept + [name] else r.kept + l.kept)
            && r.conflicts + m.conflicts == (if IsConflict(o) then r.conflicts + l.conflicts + [name] else r.conflicts + l.conflicts)
  {}

  // ----- the merge

  /** Save the registrations and the carried settings, or take the copied team states away again when that fails. */
  method Save(s: Scene, p: Private, fault: Fault, todo: Lists, carriedKeys: seq<Key>, file: GlobalConfig, machine: Machine, report: MergeReport,
              ghost f: Files)
    returns (saved: bool)
    requires s.base == f.domains && s.have == f.origins
    requires todo.registered == Names'(s, IsRegistered) && todo.carried == Names'(s, IsCarried)
    requires carriedKeys == CarriedKeys(f.github, p.github)
    requires file.domains == DomainsAt(s, |s.list|) && file.github == WithCarried(f.github, p.github)
    requires machine.Contents() == f.(origins := f.origins + Carried(s))
    modifies machine`domains, machine`github, machine`origins, report`registered, report`originsCopied, report`githubCarried
    ensures saved == !(Saves(s, f, p) && fault.save)
    ensures if saved then machine.Contents() == SavedFiles(s, f, p) && report.Contents() == SavedReport(s, f, p, old(report.Contents()))
            else machine.Contents() == f.(origins := f.origins + (Carried(s) * fault.removes)) && report.Contents() == old(report.Contents())
  {
    hide DomainsAt, Carried, WithCarried, CarriedKeys, Names';
    if todo.registered != [] || carriedKeys != [] {
      if fault.save {
        // Undo the copies: a later merge would take them for its own state.
        machine.origins := machine.origins - (Members(todo.carried) - fault.removes);
        CarriedNames(s);
        RolledBack(s, fault, machine.origins);
        return false;
      }
      machine.domains, machine.github := file.domains, file.github;
      report.registered := report.registered + todo.registered;
      report.originsCopied := report.originsCopied + todo.carried;
      report.githubCarried := report.githubCarried + carriedKeys;
    } else {
      NothingSaved(s, f, p, report.Contents());
    }
    return true;
  }

  /** Rename the private folder, when this merge left no conflict and no engram behind. */
  method Close(s: Scene, fault: Fault, problemsBefore: nat, inside: seq<string>, machine: Machine, report: MergeReport, ghost before: Report)
    returns (ok: bool)
    requires problemsBefore == |before.conflicts| + |before.notMoved| && inside == Names'(s, IsInside)
    modifies machine`privateThere, report`renamed, report`kept
    ensures Ended(machine.Contents(), report.Contents(), ok) == Closing(s, fault, before, old(machine.Contents()), old(report.Contents()))
  {
    hide Names';
    if |report.conflicts| + |report.notMoved| == problemsBefore {
      if fault.rename { return false; }
      machine.privateThere := false;
      report.renamed := true;
    }
    report.kept := report.kept + inside;
    return true;
  }

  /** Merge the private state into this machine's: what it does is what `Merge` says, wherever it stops. */
  method MergeInto(w: World, machine: Machine, p: Private, e: Engine, fault: Fault, report: MergeReport) returns (ok: bool)
    requires Listing(p.list)
    modifies machine, report
    ensures Ended(machine.Contents(), report.Contents(), ok)
         == Merge(w, old(machine.Contents()), p, e, fault, old(report.Contents()))
  {
    hide Moves, DomainsAt, Virtuals, Carried, WithCarried, CarriedKeys, Names, Sorted, SavedFiles, SavedReport, Closing, Saves;
    ghost var f, r := machine.Contents(), report.Contents();
    if fault.refused { return false; }
    var s := Scene(w, machine.domains, machine.origins, p.list, p.team);
    var file := new GlobalConfig(machine.domains, machine.github);
    var problemsBefore := |report.conflicts| + |report.notMoved|;
    var todo := SortDomains(s, machine, file, report);
    var carriedKeys := file.CarryGithub(p.github);
    var saved := Save(s, p, fault, todo, carriedKeys, file, machine, report, f);
    if !saved { return false; }
    if exists name | name in todo.registered :: name in fault.sync { return false; }
    ok := machine.MoveVirtuals(p, e, fault, todo.virtuals, report);
    if !ok { return; }
    ok := Close(s, fault, problemsBefore, todo.inside, machine, report, r);
  }

  function Members(names: seq<string>): set<string> {
    set name | name in names
  }

  lemma CarriedNames(s: Scene)
    ensures Members(Names'(s, IsCarried)) == Carried(s)
  {
    hide OutcomeAt, Names;
    forall name
      ensures name in Names'(s, IsCarried) <==> name in Carried(s)
    {
      NamesAre(s, IsCarried, |s.list|, name);
    }
  }

  /** A carried team state was not here before, so taking it away leaves what was. */
  lemma RolledBack(s: Scene, fault: Fault, left: set<string>)
    requires left == s.have + Carried(s) - (Carried(s) - fault.removes)
    ensures left == s.have + (Carried(s) * fault.removes)
  {
    hide OutcomeAt;
    forall name | name in Carried(s)
      ensures name !in s.have
    {
      var k: nat :| k < |s.list| && OutcomeAt(s, k) == Registered(true) && s.list[k].0 == name;
      CarriedIsNew(s, k);
    }
  }

  lemma CarriedIsNew(s: Scene, k: nat)
    requires k < |s.list| && OutcomeAt(s, k) == Registered(true)
    ensures s.list[k].0 !in s.have
  {
    hide NameTaken, RootedAt, UnusableRoot, DomainsAt;
  }

  lemma NothingSaved(s: Scene, f: Files, p: Private, r: Report)
    requires s.base == f.domains && !Saves(s, f, p)
    ensures SavedFiles(s, f, p) == f && SavedReport(s, f, p, r) == r
  {
    hide OutcomeAt, Names;
    assert Carried(s) == {} by {
      if name :| name in Carried(s) {
        var k: nat :| k < |s.list| && OutcomeAt(s, k) == Registered(true) && s.list[k].0 == name;
        NamesAre(s, IsRegistered, |s.list|, name);
      }
    }
    CarriedNames(s);
    SomeName(Names'(s, IsCarried));
    SameDomains(s);
  }

  lemma SomeName(names: seq<string>)
    ensures names != [] ==> Members(names) != {}
  {
    if names != [] { assert names[0] in Members(names); }
  }

  lemma SameDomains(s: Scene)
    requires Names'(s, IsRegistered) == []
    ensures DomainsAt(s, |s.list|) == s.base
  {
    hide OutcomeAt, Names, DomainsAt;
    var d := DomainsAt(s, |s.list|);
    forall n
      ensures n in d <==> n in s.base
      ensures n in s.base ==> d[n] == s.base[n]
    {
      EntriesStay(s, |s.list|, n);
      if j: nat :| j < |s.list| && s.list[j].0 == n && OutcomeAt(s, j).Registered? {
        NamesAre(s, IsRegistered, |s.list|, n);
      }
    }
  }
}
