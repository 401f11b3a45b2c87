/** What a merge reports and whether it renames the private folder, said of the two lists and the file system. */
module MergeReport {
  import opened Options
  import opened DesktopState
  import opened DesktopVerdicts
  import opened GithubSettings
  import opened VirtualImport
  import opened DesktopMerge

  /** The names of all private domains that are so, in order. */
  function All(s: Scene, so: (Scene, nat) -> bool): seq<string> {
    NamesOf(s, so, |s.list|)
  }

  lemma NamesAreAll(s: Scene)
    requires Listing(s.list)
    ensures Names'(s, IsConflict) == All(s, Conflicted) && Names'(s, IsKept) == All(s, LeftAlone)
    ensures Names'(s, IsInside) == All(s, InsideHere) && Names'(s, IsAlready) == All(s, AlreadyHere)
    ensures Names'(s, IsRegistered) == All(s, Joins) && Names'(s, IsCarried) == All(s, JoinsWithState)
    ensures Carried(s) == set k: nat | k < |s.list| && JoinsWithState(s, k) :: s.list[k].0
  {
    hide OutcomeAt, Conflicted, LeftAlone, InsideHere, AlreadyHere, Joins, JoinsWithState, VirtualHere, JoinsVirtual, IsConflict, IsKept, Names, NamesOf;
    forall k: nat | k < |s.list|
      ensures IsConflict(OutcomeAt(s, k)) <==> Conflicted(s, k)
      ensures IsKept(OutcomeAt(s, k)) <==> LeftAlone(s, k)
      ensures IsInside(OutcomeAt(s, k)) <==> InsideHere(s, k)
      ensures IsAlready(OutcomeAt(s, k)) <==> AlreadyHere(s, k)
      ensures IsRegistered(OutcomeAt(s, k)) <==> Joins(s, k)
      ensures IsCarried(OutcomeAt(s, k)) <==> JoinsWithState(s, k)
    {
      VerdictsAre(s, k);
    }
    var n := |s.list|;
    ListsAre(s, IsConflict, Conflicted, n);
    ListsAre(s, IsKept, LeftAlone, n);
    ListsAre(s, IsInside, InsideHere, n);
    ListsAre(s, IsAlready, AlreadyHere, n);
    ListsAre(s, IsRegistered, Joins, n);
    ListsAre(s, IsCarried, JoinsWithState, n);
  }

  // ----- what the moves of the virtual domains add

  /** The virtual domains that are new here, in order. */
  function Fresh(virtuals: seq<(string, bool)>): seq<string> {
    if virtuals == [] then [] else (if virtuals[0].1 then [] else [virtuals[0].0]) + Fresh(virtuals[1..])
  }

  lemma {:induction false} FreshJoin(a: seq<(string, bool)>, b: seq<(string, bool)>)
    ensures Fresh(a + b) == Fresh(a) + Fresh(b)
  {
    if a == [] {
      assert a + b == b;
    } else {
      assert (a + b)[1..] == a[1..] + b;
      FreshJoin(a[1..], b);
    }
  }

  lemma {:induction false} FreshAre(s: Scene, n: nat)
    requires n <= |s.list| && Listing(s.list)
    ensures Fresh(Virtuals(s, n)) == NamesOf(s, JoinsVirtual, n)
  {
    hide OutcomeAt, JoinsVirtual, VirtualHere, Joins, Conflicted, LeftAlone;
    if n > 0 {
      FreshAre(s, n - 1);
      VerdictsAre(s, n - 1);
      var name := s.list[n - 1].0;
      FreshJoin(Virtuals(s, n - 1), [(name, false)]);
      FreshJoin(Virtuals(s, n - 1), [(name, true)]);
      FreshOne(name);
      assert Virtuals(s, n - 1) + [] == Virtuals(s, n - 1);
    }
  }

  lemma FreshOne(name: string)
    ensures Fresh([(name, false)]) == [name] && Fresh([(name, true)]) == []
  {
    assert [(name, false)][1..] == [] && [(name, true)][1..] == [];
  }

  lemma StepSays(p: Private, e: Engine, f: Files, r: Report, name: string, both: bool)
    ensures var q := Registering(f, r, name, both).1;
            && q == r.(registered := q.registered) && q.registered == r.registered + (if both then [] else [name])
    ensures var q := Importing(p, e, f, r, name, both).1;
            q == r.(imported := q.imported, notMoved := q.notMoved, keptBoth := q.keptBoth)
  {
    hide Paths, Differing, Imported;
  }

  lemma FreshNone()
    ensures Fresh([]) == []
  {}

  lemma FreshFirst(virtuals: seq<(string, bool)>)
    requires virtuals != []
    ensures Fresh(virtuals) == (if virtuals[0].1 then [] else [virtuals[0].0]) + Fresh(virtuals[1..])
  {}

  lemma Between(before: seq<string>, own: seq<string>, more: seq<string>, after: seq<string>)
    ensures before + own + more == before + (own + more)
    ensures before + own <= after <= before + own + more ==> before <= after <= before + (own + more)
    ensures before <= before + (own + more) && before <= before + own <= before + (own + more)
  {
    assert before + own + more == before + (own + more);
  }

  /** The moves change four lists only, and register every new virtual domain up to where they stop. */
  lemma {:induction false} MovesSay(p: Private, e: Engine, fault: Fault, f: Files, r: Report, virtuals: seq<(string, bool)>)
    ensures var end := Moves(p, e, fault, f, r, virtuals); var q := end.report;
            && q == r.(registered := q.registered, imported := q.imported, notMoved := q.notMoved, keptBoth := q.keptBoth)
            && r.registered <= q.registered <= r.registered + Fresh(virtuals)
            && (end.ok ==> q.registered == r.registered + Fresh(virtuals))
    decreases |virtuals|
  {
    hide Registering, Importing, Fresh;
    FreshNone();
    if virtuals != [] {
      var (name, both) := virtuals[0];
      var (f1, r1) := Registering(f, r, name, both);
      StepSays(p, e, f, r, name, both);
      var (f2, r2) := Importing(p, e, f1, r1, name, both);
      StepSays(p, e, f1, r1, name, both);
      MovesSay(p, e, fault, f2, r2, virtuals[1..]);
      var q := Moves(p, e, fault, f2, r2, virtuals[1..]).report;
      FreshFirst(virtuals);
      hide Moves;
      Between(r.registered, if both then [] else [name], Fresh(virtuals[1..]), q.registered);
      Between(r.registered, if both then [] else [name], Fresh(virtuals[1..]), r1.registered);
    }
  }

  // ----- the report

  /** The merge got as far as keeping what it registered. */
  predicate Stored(s: Scene, f: Files, p: Private, fault: Fault) {
    !(fault.save && (All(s, Joins) != [] || CarriedKeys(f.github, p.github) != []))
  }

  /**
   * Every list of the report gains exactly the private domains that are so:
   * the conflicts, whatever fails later; what this machine kept, and, once
   * the merge ends, what lies in the private folder; what was there
   * already; and what joined, when it was stored.
   */
  lemma ReportSays(w: World, f: Files, p: Private, e: Engine, fault: Fault, r: Report)
    requires Listing(p.list) && !fault.refused
    ensures var end := Merge(w, f, p, e, fault, r); var s, q := SceneOf(w, f, p), end.report;
            && q.conflicts == r.conflicts + All(s, Conflicted) && q.already == r.already + All(s, AlreadyHere)
            && q.kept == r.kept + All(s, LeftAlone) + (if end.ok then All(s, InsideHere) else [])
            && (!Stored(s, f, p, fault) ==> q.registered == r.registered && q.originsCopied == r.originsCopied)
            && (Stored(s, f, p, fault) ==>
                  && q.originsCopied == r.originsCopied + All(s, JoinsWithState)
                  && r.registered + All(s, Joins) <= q.registered <= r.registered + All(s, Joins) + All(s, JoinsVirtual)
                  && (end.ok ==> q.registered == r.registered + All(s, Joins) + All(s, JoinsVirtual)))
  {
    hide Moves, OutcomeAt, DomainsAt, Virtuals, SyncFails, Carried, WithCarried, CarriedKeys, Names, NamesOf, SavedFiles, JoinsVirtual, Joins,
         Conflicted, LeftAlone, InsideHere, AlreadyHere, JoinsWithState;
    var s := SceneOf(w, f, p);
    NamesAreAll(s);
    FreshAre(s, |s.list|);
    var f2, r2 := SavedFiles(s, f, p), SavedReport(s, f, p, Sorted(s, r));
    MovesSay(p, e, fault, f2, r2, Virtuals(s, |s.list|));
  }

  /** A name registered here and privately in two ways is a new conflict exactly when the private one is virtual or its folder is there to stay, and is kept exactly when that folder lies in the private one, is missing or not named. */
  lemma RegisteredTwice(w: World, f: Files, p: Private, e: Engine, fault: Fault, r: Report, k: nat)
    requires Listing(p.list) && !fault.refused && Otherwise(SceneOf(w, f, p), k) && Merge(w, f, p, e, fault, r).ok
    ensures var (name, entry) := p.list[k]; var q := Merge(w, f, p, e, fault, r).report;
            && (name in NewOnes(r.conflicts, q.conflicts) <==> entry.isVirtual || StaysThere(w, entry))
            && (name in NewOnes(r.kept, q.kept) <==> !entry.isVirtual && (LiesInside(w, entry) || NoFolder(w, entry)))
  {
    hide Merge, NamesOf, NameTaken, FolderTaken, Joins, Known, Alike, StaysThere, LiesInside, NoFolder;
    var s, q := SceneOf(w, f, p), Merge(w, f, p, e, fault, r).report;
    var name := p.list[k].0;
    ReportSays(w, f, p, e, fault, r);
    FolderOf(w, p.list[k].1);
    AlsoIn(s, Conflicted, k);
    AlsoIn(s, LeftAlone, k);
    AlsoIn(s, InsideHere, k);
    assert r.kept + All(s, LeftAlone) + All(s, InsideHere) == r.kept + (All(s, LeftAlone) + All(s, InsideHere));
    Gained(r.conflicts, All(s, Conflicted));
    Gained(r.kept, All(s, LeftAlone) + All(s, InsideHere));
  }

  lemma Gained<T>(before: seq<T>, more: seq<T>)
    ensures NewOnes(before, before + more) == more
  {}

  lemma AlsoIn(s: Scene, so: (Scene, nat) -> bool, k: nat)
    requires k < |s.list| && Listing(s.list)
    ensures s.list[k].0 in All(s, so) <==> so(s, k)
  {
    NamesOfAre(s, so, |s.list|, s.list[k].0);
    if j: nat :| j < |s.list| && s.list[j].0 == s.list[k].0 && so(s, j) { SameIndex(s.list, j, k); }
  }

  // ----- the rename

  /** The import of the domain's engrams leaves none behind. */
  predicate ImportsAll(e: Engine, f: Files, p: Private, name: string) {
    forall j | 0 <= j < |ExportOf(p, name)| :: !WarnsAt(e, EngramsOf(f.engrams, name), ExportOf(p, name), j)
  }

  predicate WarnsAt(e: Engine, here: Engrams, there: Export, j: int)
    requires 0 <= j < |there|
  {
    FateAt(e, here, there, j) == Warned
  }

  lemma PathsNext(e: Engine, here: Engrams, there: Export, n: nat)
    requires n < |there|
    ensures Paths(e, here, there, Warned, n + 1) == Paths(e, here, there, Warned, n) + (if WarnsAt(e, here, there, n) then [there[n].0] else [])
  {
    hide FateAt;
  }

  lemma {:induction false} NoneWarned(e: Engine, here: Engrams, there: Export, n: nat)
    requires n <= |there|
    ensures Paths(e, here, there, Warned, n) == [] <==> forall j | 0 <= j < n :: !WarnsAt(e, here, there, j)
  {
    if n > 0 {
      NoneWarned(e, here, there, n - 1);
      PathsNext(e, here, there, n - 1);
      hide FateAt, WarnsAt, Paths;
    }
  }

  lemma NothingNew(r: Report, q: Report)
    requires Extends(r, q)
    ensures q.notMoved == r.notMoved <==> forall name :: name !in NewOnes(r.notMoved, q.notMoved)
  {
    var more := NewOnes(r.notMoved, q.notMoved);
    if |q.notMoved| > |r.notMoved| { assert more[0] in more; }
  }

  /** What is moved is moved whole exactly when the import of each virtual domain leaves nothing behind. */
  lemma MovedWhole(p: Private, e: Engine, fault: Fault, f: Files, r: Report, virtuals: seq<(string, bool)>)
    requires Moves(p, e, fault, f, r, virtuals).ok && NamesOnce(virtuals)
    ensures Moves(p, e, fault, f, r, virtuals).report.notMoved == r.notMoved
       <==> forall i | 0 <= i < |virtuals| :: ImportsAll(e, f, p, virtuals[i].0)
  {
    hide Moves, Told, Untold, Extends, ImportsAll, NewOnes, NamesOnce;
    var q := Moves(p, e, fault, f, r, virtuals).report;
    MovesTell(p, e, fault, f, r, virtuals, "", false);
    NothingNew(r, q);
    forall i | 0 <= i < |virtuals|
      ensures virtuals[i].0 in NewOnes(r.notMoved, q.notMoved) <==> !ImportsAll(e, f, p, virtuals[i].0)
    {
      var (name, both) := virtuals[i];
      MovesTell(p, e, fault, f, r, virtuals, name, both);
      ToldWarns(e, f, p, name, both, r, q);
    }
    forall name
      ensures name in NewOnes(r.notMoved, q.notMoved) ==> InVirtuals(virtuals, name)
    {
      MovesTell(p, e, fault, f, r, virtuals, name, false);
      UntoldStays(name, r, q);
    }
  }

  lemma ToldWarns(e: Engine, f: Files, p: Private, name: string, both: bool, r: Report, q: Report)
    requires Told(e, EngramsOf(f.engrams, name), ExportOf(p, name), name, both, r, q)
    ensures name in NewOnes(r.notMoved, q.notMoved) <==> !ImportsAll(e, f, p, name)
  {
    hide NewOnes, Paths, Differing, WarnsAt, EngramsOf, ExportOf;
    NoneWarned(e, EngramsOf(f.engrams, name), ExportOf(p, name), |ExportOf(p, name)|);
  }

  lemma UntoldStays(name: string, r: Report, q: Report)
    ensures Untold(name, r, q) ==> name !in NewOnes(r.notMoved, q.notMoved)
  {
    hide NewOnes;
  }

  /** Moved as a virtual domain: new here, or virtual on both sides. */
  predicate MovesVirtual(s: Scene, k: nat) {
    VirtualHere(s, k) || JoinsVirtual(s, k)
  }

  lemma {:induction false} VirtualsMove(s: Scene, n: nat, name: string)
    requires n <= |s.list| && Listing(s.list)
    ensures InVirtuals(Virtuals(s, n), name) <==> exists k: nat :: k < n && s.list[k].0 == name && MovesVirtual(s, k)
  {
    hide OutcomeAt, JoinsVirtual, VirtualHere, Joins, Conflicted, LeftAlone;
    if n > 0 {
      VirtualsMove(s, n - 1, name);
      VerdictsAre(s, n - 1);
      var before, all := Virtuals(s, n - 1), Virtuals(s, n);
      if i :| 0 <= i < |before| && before[i].0 == name { assert all[i].0 == name; }
      if |all| > |before| && s.list[n - 1].0 == name { assert all[|before|].0 == name; }
    }
  }

  /**
   * The private folder is renamed exactly when the merge ends well, no
   * private domain is registered here in another real way or refused a new
   * registration, and every virtual domain came over whole.
   */
  lemma RenamedWhen(w: World, f: Files, p: Private, e: Engine, fault: Fault, r: Report)
    requires Listing(p.list) && f.privateThere && !r.renamed
    ensures var end := Merge(w, f, p, e, fault, r); var s := SceneOf(w, f, p);
            && (end.files.privateThere <==> !end.report.renamed)
            && (end.report.renamed <==>
                  && end.ok && (forall k: nat | k < |p.list| :: !Conflicted(s, k))
                  && forall k: nat | k < |p.list| && MovesVirtual(s, k) :: ImportsAll(e, f, p, p.list[k].0))
  {
    hide Merge, OutcomeAt, Conflicted, MovesVirtual, ImportsAll, IsConflict, LeftAlone, Joins, JoinsVirtual, VirtualHere;
    var s, end := SceneOf(w, f, p), Merge(w, f, p, e, fault, r);
    RenamedByOutcome(w, f, p, e, fault, r);
    forall k: nat | k < |s.list|
      ensures IsConflict(OutcomeAt(s, k)) <==> Conflicted(s, k)
    {
      VerdictsAre(s, k);
    }
    if end.ok { MergeMovedWhole(w, f, p, e, fault, r); }
  }

  lemma MergeMovedWhole(w: World, f: Files, p: Private, e: Engine, fault: Fault, r: Report)
    requires Listing(p.list) && Merge(w, f, p, e, fault, r).ok
    ensures Merge(w, f, p, e, fault, r).report.notMoved == r.notMoved
       <==> forall k: nat | k < |p.list| && MovesVirtual(SceneOf(w, f, p), k) :: ImportsAll(e, f, p, p.list[k].0)
  {
    hide Moves, OutcomeAt, DomainsAt, Virtuals, Saves, SyncFails, Carried, WithCarried, CarriedKeys, Names, ImportsAll, MovesVirtual, NamesOnce, InVirtuals;
    var s := SceneOf(w, f, p);
    var virtuals := Virtuals(s, |s.list|);
    var f2, r2 := SavedFiles(s, f, p), SavedReport(s, f, p, Sorted(s, r));
    VirtualsOnce(s, |s.list|);
    MovedWhole(p, e, fault, f2, r2, virtuals);
    SameImports(e, f, f2, p);
    VirtualsListed(s, virtuals, name => ImportsAll(e, f, p, name));
  }

  lemma SameImports(e: Engine, f: Files, g: Files, p: Private)
    requires f.engrams == g.engrams
    ensures forall name :: ImportsAll(e, f, p, name) <==> ImportsAll(e, g, p, name)
  {}

  lemma VirtualsListed(s: Scene, virtuals: seq<(string, bool)>, so: string -> bool)
    requires Listing(s.list) && virtuals == Virtuals(s, |s.list|)
    ensures (forall i | 0 <= i < |virtuals| :: so(virtuals[i].0))
       <==> forall k: nat | k < |s.list| && MovesVirtual(s, k) :: so(s.list[k].0)
  {
    hide Virtuals, MovesVirtual;
    forall name
      ensures InVirtuals(virtuals, name) <==> exists k: nat :: k < |s.list| && s.list[k].0 == name && MovesVirtual(s, k)
    {
      VirtualsMove(s, |s.list|, name);
    }
    forall i | 0 <= i < |virtuals|
      ensures InVirtuals(virtuals, virtuals[i].0)
    {}
    forall k: nat | k < |s.list| && MovesVirtual(s, k)
      ensures InVirtuals(virtuals, s.list[k].0)
    {}
  }
}
