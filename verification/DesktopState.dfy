/** The second state Claude Desktop keeps, merged into this machine's own: which domains come over. */
module DesktopState {
  import opened Options

  type Path = string

  /** A folder with its links resolved, as its components. */
  type Root = seq<string>

  datatype Entry = Entry(isVirtual: bool, path: Option<Path>, team: bool, aliases: seq<string>)

  const VIRTUAL_DOMAIN := Entry(true, None, false, [])

  /** What the merge reads of the file system and the environment. */
  datatype World = World(
    canonical: Path -> Root, isDir: Root -> bool, declared: Path -> Option<string>,
    folder: Root, env: map<string, Entry>, originsDir: bool, copyFails: set<string>)

  // ----- the folders

  function CanonicalRoot(w: World, entry: Entry): Option<Root> {
    match entry.path
    case Some(path) => Some(w.canonical(path))
    case None => None
  }

  datatype Unusable = Inside(rel: Root) | Missing

  /** What keeps a folder from being registered: it moves with the private one, or it is not there. */
  function UnusableRoot(w: World, entry: Entry): Option<Unusable> {
    match CanonicalRoot(w, entry)
    case None => Some(Missing)
    case Some(root) =>
      if w.folder <= root then Some(Inside(root[|w.folder|..]))
      else if !w.isDir(root) then Some(Missing)
      else None
  }

  predicate SameRegistration(w: World, here: Entry, there: Entry) {
    here.isVirtual == there.isVirtual && CanonicalRoot(w, here) == CanonicalRoot(w, there)
  }

  /** Some domain is registered at the folder. */
  predicate RootedAt(w: World, domains: map<string, Entry>, root: Root) {
    exists n | n in domains :: CanonicalRoot(w, domains[n]) == Some(root)
  }

  // ----- the names

  /** Every domain this machine answers for: the environment's, and the config's over them. */
  function Known(w: World, domains: map<string, Entry>): map<string, Entry> {
    w.env + domains
  }

  /** The name a domain's content carries. */
  function Canonical(w: World, local: string, entry: Entry): string {
    if entry.isVirtual || entry.path.None? then local
    else
      match w.declared(entry.path.value)
      case Some(name) => name
      case None => local
  }

  predicate Claims(w: World, known: map<string, Entry>, d: string, s: string) {
    d in known && Canonical(w, d, known[d]) == s && s != d
  }

  predicate Lists(w: World, known: map<string, Entry>, d: string, s: string) {
    d in known && s in known[d].aliases && s != d && s != Canonical(w, d, known[d])
  }

  /** The domains whose canonical name the spelling is, other than by being registered under it. */
  function Claimants(w: World, known: map<string, Entry>, s: string): set<string> {
    set d | d in known && Claims(w, known, d, s)
  }

  /** The domains that list the spelling as a former name. */
  function Listers(w: World, known: map<string, Entry>, s: string): set<string> {
    set d | d in known && Lists(w, known, d, s)
  }

  /** The spelling reaches a domain only as somebody's alias. */
  predicate ByAlias(w: World, known: map<string, Entry>, s: string) {
    s !in known && Claimants(w, known, s) == {} && |Listers(w, known, s)| == 1
  }

  /** The spelling means a domain: a local name, else a canonical name one domain claims, else an alias one domain lists. */
  predicate Resolves(w: World, known: map<string, Entry>, s: string) {
    s in known || |Claimants(w, known, s)| == 1 || ByAlias(w, known, s)
  }

  /** The spellings a registration brings: its name and the canonical name its MANIFEST declares. */
  function Spellings(w: World, name: string, entry: Entry): set<string> {
    {name, Canonical(w, name, entry)}
  }

  predicate NameTaken(w: World, known: map<string, Entry>, name: string, entry: Entry) {
    name in w.env || exists s | s in Spellings(w, name, entry) :: Resolves(w, known, s)
  }

  // ----- the verdict on one private domain

  datatype Outcome =
    | Elsewhere                   // its folder is registered here under another name
    | Taken                       // this machine cannot take its name
    | NewVirtual
    | Unplaced                    // its folder cannot be registered
    | NoTeamState                 // a team domain whose state could not be copied
    | Registered(carried: bool)   // newly registered, with its team state or without one to carry
    | SameVirtual
    | Already
    | KeptInside
    | KeptMissing
    | Clash

  predicate IsConflict(o: Outcome) {
    o.Taken? || o.Unplaced? || o.NoTeamState? || o.Clash?
  }

  predicate IsKept(o: Outcome) {
    o.Elsewhere? || o.KeptMissing?
  }

  /** A merge about to run: the domains and team states here, and the private list in name order with its team states. */
  datatype Scene = Scene(world: World, base: map<string, Entry>, have: set<string>, list: seq<(string, Entry)>, team: set<string>)

  predicate Listing(list: seq<(string, Entry)>) {
    forall i, j | 0 <= i < j < |list| :: list[i].0 != list[j].0
  }

  /** Why a team domain's state does not come over: no place for it, one there already, or a copy that fails. */
  predicate TeamStateFails(s: Scene, name: string) {
    name in s.team && (!s.world.originsDir || name in s.have || name in s.world.copyFails)
  }

  function Judge(s: Scene, domains: map<string, Entry>, name: string, entry: Entry): Outcome {
    var w := s.world;
    var unusable: Option<Unusable> := if entry.isVirtual then None else UnusableRoot(w, entry);
    if name !in domains then
      var root := CanonicalRoot(w, entry);
      if !entry.isVirtual && root.Some? && RootedAt(w, domains, root.value) then Elsewhere
      else if NameTaken(w, Known(w, s.base), name, entry) then Taken
      else if entry.isVirtual then NewVirtual
      else if unusable.Some? then Unplaced
      else if entry.team && TeamStateFails(s, name) then NoTeamState
      else Registered(entry.team && name in s.team)
    else if SameRegistration(w, domains[name], entry) then (if entry.isVirtual then SameVirtual else Already)
    else if unusable.None? then Clash
    else if unusable.value.Inside? then KeptInside
    else KeptMissing
  }

  /** The domains once the first `k` private ones were judged. */
  function DomainsAt(s: Scene, k: nat): map<string, Entry>
    requires k <= |s.list|
  {
    if k == 0 then s.base
    else
      var d := DomainsAt(s, k - 1);
      var (name, entry) := s.list[k - 1];
      if Judge(s, d, name, entry).Registered? then d[name := entry] else d
  }

  function OutcomeAt(s: Scene, k: nat): Outcome
    requires k < |s.list|
  {
    Judge(s, DomainsAt(s, k), s.list[k].0, s.list[k].1)
  }

  /** The names among the first `n` whose outcome is one of these, in order. */
  function Names(s: Scene, pick: Outcome -> bool, n: nat): seq<string>
    requires n <= |s.list|
  {
    if n == 0 then []
    else Names(s, pick, n - 1) + (if pick(OutcomeAt(s, n - 1)) then [s.list[n - 1].0] else [])
  }

  lemma {:induction false} NamesAre(s: Scene, pick: Outcome -> bool, n: nat, name: string)
    requires n <= |s.list|
    ensures name in Names(s, pick, n) <==> exists k :: 0 <= k < n && s.list[k].0 == name && pick(OutcomeAt(s, k))
  {
    hide OutcomeAt;
    if n > 0 { NamesAre(s, pick, n - 1, name); }
  }

  /** Every private domain has one outcome: a name is in a list exactly when its own outcome is one the list takes. */
  lemma OneOutcome(s: Scene, pick: Outcome -> bool, k: nat)
    requires k < |s.list| && Listing(s.list)
    ensures s.list[k].0 in Names(s, pick, |s.list|) <==> pick(OutcomeAt(s, k))
  {
    hide OutcomeAt;
    NamesAre(s, pick, |s.list|, s.list[k].0);
    if j: nat :| j < |s.list| && s.list[j].0 == s.list[k].0 && pick(OutcomeAt(s, j)) { SameIndex(s.list, j, k); }
  }

  lemma SameIndex(list: seq<(string, Entry)>, j: nat, k: nat)
    requires j < |list| && k < |list| && Listing(list) && list[j].0 == list[k].0
    ensures j == k
  {}

  // ----- what stays

  lemma {:induction false} DomainsGrow(s: Scene, j: nat, k: nat)
    requires j <= k <= |s.list|
    ensures forall n | n in DomainsAt(s, j) :: n in DomainsAt(s, k) && DomainsAt(s, k)[n] == DomainsAt(s, j)[n]
    decreases k
  {
    hide Judge;
    if k > j {
      DomainsGrow(s, j, k - 1);
      JudgeNew(s, DomainsAt(s, k - 1), s.list[k - 1].0, s.list[k - 1].1);
    }
  }

  lemma JudgeNew(s: Scene, d: map<string, Entry>, name: string, entry: Entry)
    ensures Judge(s, d, name, entry).Registered? ==> name !in d
  {
    hide NameTaken, RootedAt, UnusableRoot;
  }

  /** No entry of this machine changes, and a name is new exactly when its outcome was to be registered. */
  lemma {:induction false} EntriesStay(s: Scene, k: nat, n: string)
    requires k <= |s.list|
    ensures n in s.base ==> n in DomainsAt(s, k) && DomainsAt(s, k)[n] == s.base[n]
    ensures n !in s.base ==> (n in DomainsAt(s, k) <==> exists j :: 0 <= j < k && s.list[j].0 == n && OutcomeAt(s, j).Registered?)
  {
    hide Judge;
    if k > 0 {
      EntriesStay(s, k - 1, n);
      JudgeNew(s, DomainsAt(s, k - 1), s.list[k - 1].0, s.list[k - 1].1);
      assert OutcomeAt(s, k - 1) == Judge(s, DomainsAt(s, k - 1), s.list[k - 1].0, s.list[k - 1].1);
    }
  }

  /** Two file domains never share a folder. */
  ghost predicate DistinctRoots(w: World, domains: map<string, Entry>) {
    forall a, b | a in domains && b in domains && a != b && !domains[a].isVirtual && !domains[b].isVirtual ::
      CanonicalRoot(w, domains[a]).None? || CanonicalRoot(w, domains[a]) != CanonicalRoot(w, domains[b])
  }

  /** What registering takes: a new name, a folder no domain here has, there, and outside the private folder. */
  lemma RegisteredIsFree(s: Scene, d: map<string, Entry>, name: string, entry: Entry)
    requires Judge(s, d, name, entry).Registered?
    ensures name !in d && !entry.isVirtual && CanonicalRoot(s.world, entry).Some?
    ensures var root := CanonicalRoot(s.world, entry).value;
            !RootedAt(s.world, d, root) && s.world.isDir(root) && !(s.world.folder <= root)
    ensures !NameTaken(s.world, Known(s.world, s.base), name, entry)
  {
    hide NameTaken, RootedAt;
  }

  /** Folders stay distinct, even when two private names share one: the second finds the first registered. */
  lemma {:induction false} RootsStayDistinct(s: Scene, k: nat)
    requires k <= |s.list| && DistinctRoots(s.world, s.base)
    ensures DistinctRoots(s.world, DomainsAt(s, k))
  {
    hide Judge, CanonicalRoot;
    if k > 0 {
      RootsStayDistinct(s, k - 1);
      var d := DomainsAt(s, k - 1);
      var (name, entry) := s.list[k - 1];
      if Judge(s, d, name, entry).Registered? {
        RegisteredIsFree(s, d, name, entry);
        assert forall a | a in d :: CanonicalRoot(s.world, d[a]) != CanonicalRoot(s.world, entry);
      }
    }
  }

  /** Of two private names that share a folder at most the first is registered. */
  lemma SharedFolder(s: Scene, i: nat, j: nat)
    requires i < j < |s.list| && OutcomeAt(s, i).Registered? && !s.list[j].1.isVirtual && Listing(s.list)
    requires CanonicalRoot(s.world, s.list[i].1) == CanonicalRoot(s.world, s.list[j].1)
    ensures s.list[j].0 !in s.base ==> OutcomeAt(s, j) == Elsewhere
  {
    hide Judge, CanonicalRoot;
    var d := DomainsAt(s, j);
    var name, entry := s.list[j].0, s.list[j].1;
    RegisteredIsFree(s, DomainsAt(s, i), s.list[i].0, s.list[i].1);
    DomainsGrow(s, i + 1, j);
    assert DomainsAt(s, i + 1)[s.list[i].0] == s.list[i].1;
    assert CanonicalRoot(s.world, d[s.list[i].0]) == CanonicalRoot(s.world, entry);
    if name !in s.base {
      EntriesStay(s, j, name);
      RootedIsElsewhere(s, d, name, entry);
    }
  }

  lemma RootedIsElsewhere(s: Scene, d: map<string, Entry>, name: string, entry: Entry)
    requires name !in d && !entry.isVirtual && CanonicalRoot(s.world, entry).Some?
    requires RootedAt(s.world, d, CanonicalRoot(s.world, entry).value)
    ensures Judge(s, d, name, entry) == Elsewhere
  {
    hide RootedAt, NameTaken, UnusableRoot, CanonicalRoot;
  }

  /** The rename moves no folder a domain was registered with. */
  lemma RegisteredStaysPut(s: Scene, k: nat)
    requires k < |s.list| && OutcomeAt(s, k).Registered?
    ensures CanonicalRoot(s.world, s.list[k].1).Some? && !(s.world.folder <= CanonicalRoot(s.world, s.list[k].1).value)
  {
    hide Judge, CanonicalRoot;
    RegisteredIsFree(s, DomainsAt(s, k), s.list[k].0, s.list[k].1);
  }

  // ----- the names table after the merge

  /** The config grew by registrations whose spellings meant nothing here. */
  ghost predicate Grown(w: World, base: map<string, Entry>, after: map<string, Entry>) {
    && (forall n | n in base :: n in after && after[n] == base[n])
    && (forall n | n in after && n !in base :: n !in w.env && forall s | s in Spellings(w, n, after[n]) :: !Resolves(w, Known(w, base), s))
  }

  lemma NewSpellings(w: World, base: map<string, Entry>, after: map<string, Entry>, n: string)
    requires Grown(w, base, after) && n in after && n !in base
    ensures n !in w.env && !Resolves(w, Known(w, base), n) && !Resolves(w, Known(w, base), Canonical(w, n, after[n]))
  {
    hide Resolves, Canonical;
    assert n in Spellings(w, n, after[n]) && Canonical(w, n, after[n]) in Spellings(w, n, after[n]);
  }

  lemma SameClaims(w: World, base: map<string, Entry>, after: map<string, Entry>, s: string)
    requires Grown(w, base, after) && Resolves(w, Known(w, base), s)
    ensures Claimants(w, Known(w, after), s) == Claimants(w, Known(w, base), s)
    ensures s in Known(w, after) <==> s in Known(w, base)
  {
    hide Resolves, Canonical, Spellings;
    var a, b := Known(w, after), Known(w, base);
    forall d
      ensures Claims(w, a, d, s) <==> Claims(w, b, d, s)
    {
      if d in after && d !in base { NewSpellings(w, base, after, d); }
    }
    assert forall d :: d in Claimants(w, a, s) <==> d in Claimants(w, b, s);
    if s in after && s !in base { NewSpellings(w, base, after, s); }
  }

  lemma SameLists(w: World, base: map<string, Entry>, after: map<string, Entry>, d: string, s: string)
    requires Grown(w, base, after)
    ensures Lists(w, Known(w, after), d, s)
       <==> Lists(w, Known(w, base), d, s) || (d in after && d !in base && Lists(w, after, d, s))
  {
    hide Resolves, Canonical, Spellings;
    if d in after && d !in base { NewSpellings(w, base, after, d); }
  }

  /** A spelling that meant a domain still does, unless it did so as an alias and a new registration lists it too. */
  lemma SpellingStays(w: World, base: map<string, Entry>, after: map<string, Entry>, s: string)
    requires Grown(w, base, after) && Resolves(w, Known(w, base), s)
    ensures Resolves(w, Known(w, after), s)
       <==> !(ByAlias(w, Known(w, base), s) && exists n :: n in after && n !in base && Lists(w, after, n, s))
  {
    hide Claimants, Listers, Lists, Grown, Known;
    SameClaims(w, base, after, s);
    AliasStays(w, base, after, s);
  }

  lemma AliasStays(w: World, base: map<string, Entry>, after: map<string, Entry>, s: string)
    requires Grown(w, base, after) && Resolves(w, Known(w, base), s)
    ensures |Listers(w, Known(w, base), s)| == 1 ==>
              (|Listers(w, Known(w, after), s)| == 1 <==> !exists n :: n in after && n !in base && Lists(w, after, n, s))
  {
    hide Lists, Grown, Resolves;
    var a, b := Listers(w, Known(w, after), s), Listers(w, Known(w, base), s);
    ListersGrow(w, base, after, s);
    if a == b {
    } else if |b| == 1 {
      var n :| n in a && n !in b;
      assert b + {n} <= a;
      SubsetSize(b + {n}, a);
    }
  }

  lemma ListersGrow(w: World, base: map<string, Entry>, after: map<string, Entry>, s: string)
    requires Grown(w, base, after)
    ensures Listers(w, Known(w, base), s) <= Listers(w, Known(w, after), s)
    ensures Listers(w, Known(w, base), s) == Listers(w, Known(w, after), s)
       <==> !exists n :: n in after && n !in base && Lists(w, after, n, s)
  {
    hide Resolves, Canonical, Spellings;
    var a, b := Known(w, after), Known(w, base);
    forall d
      ensures d in Listers(w, a, s) <==> d in Listers(w, b, s) || (d in after && d !in base && Lists(w, after, d, s))
    {
      SameLists(w, base, after, d, s);
    }
    forall n | n in after && n !in base
      ensures n !in Listers(w, b, s)
    {
      NewSpellings(w, base, after, n);
    }
  }

  lemma {:induction false} SubsetSize(a: set<string>, b: set<string>)
    requires a <= b
    ensures |a| <= |b|
  {
    assert b == a + (b - a);
  }

  // ----- the same merge again

  /** The names whose virtual domains the merge registers, added to the config. */
  function WithVirtuals(domains: map<string, Entry>, names: set<string>): map<string, Entry> {
    domains + map n | n in names :: VIRTUAL_DOMAIN
  }

  function NewVirtuals(s: Scene): set<string> {
    set k: nat | k < |s.list| && OutcomeAt(s, k) == NewVirtual :: s.list[k].0
  }

  /** The config a merge without an error leaves. */
  function Merged(s: Scene): map<string, Entry> {
    WithVirtuals(DomainsAt(s, |s.list|), NewVirtuals(s))
  }

  function Carried(s: Scene): set<string> {
    set k: nat | k < |s.list| && OutcomeAt(s, k) == Registered(true) :: s.list[k].0
  }

  /** The scene a repeat finds: the private state as it was, this machine's as the merge left it. */
  function Again(s: Scene): Scene {
    s.(base := Merged(s), have := s.have + Carried(s))
  }

  lemma IsNewVirtual(s: Scene, k: nat)
    requires k < |s.list| && Listing(s.list)
    ensures s.list[k].0 in NewVirtuals(s) <==> OutcomeAt(s, k) == NewVirtual
  {
    hide OutcomeAt;
    if s.list[k].0 in NewVirtuals(s) {
      var j: nat :| j < |s.list| && OutcomeAt(s, j) == NewVirtual && s.list[j].0 == s.list[k].0;
      SameIndex(s.list, j, k);
    }
  }

  lemma StaysOut(s: Scene, k: nat)
    requires k < |s.list| && Listing(s.list) && s.list[k].0 !in DomainsAt(s, k) && !OutcomeAt(s, k).Registered?
    ensures s.list[k].0 !in DomainsAt(s, |s.list|)
  {
    hide Judge, DomainsAt;
    var n, name := |s.list|, s.list[k].0;
    EntriesStay(s, n, name);
    EntriesStay(s, k, name);
    if j: nat :| j < n && s.list[j].0 == name && OutcomeAt(s, j).Registered? { SameIndex(s.list, j, k); }
  }

  lemma RegisteredJoins(s: Scene, k: nat)
    requires k < |s.list| && OutcomeAt(s, k).Registered?
    ensures s.list[k].0 in DomainsAt(s, k + 1) && DomainsAt(s, k + 1)[s.list[k].0] == s.list[k].1
  {
    hide Judge;
  }

  lemma MergedEntry(s: Scene, k: nat)
    requires k < |s.list| && Listing(s.list)
    ensures var name, o := s.list[k].0, OutcomeAt(s, k);
            if name in DomainsAt(s, k) then name in Merged(s) && Merged(s)[name] == DomainsAt(s, k)[name]
            else if o.Registered? then name in Merged(s) && Merged(s)[name] == s.list[k].1
            else if o.NewVirtual? then name in Merged(s) && Merged(s)[name] == VIRTUAL_DOMAIN
            else name !in Merged(s)
  {
    hide OutcomeAt, DomainsAt, NewVirtuals;
    IsNewVirtual(s, k);
    DomainsGrow(s, k, |s.list|);
    NewVirtualIsNew(s, k);
    if OutcomeAt(s, k).Registered? {
      RegisteredJoins(s, k);
      DomainsGrow(s, k + 1, |s.list|);
    } else if s.list[k].0 !in DomainsAt(s, k) {
      StaysOut(s, k);
    }
  }

  lemma NewVirtualIsNew(s: Scene, k: nat)
    requires k < |s.list|
    ensures OutcomeAt(s, k).NewVirtual? || OutcomeAt(s, k).Registered? ==> s.list[k].0 !in DomainsAt(s, k)
  {
    hide Judge;
    VirtualIsNew(s, DomainsAt(s, k), s.list[k].0, s.list[k].1);
    JudgeNew(s, DomainsAt(s, k), s.list[k].0, s.list[k].1);
  }

  lemma VirtualIsNew(s: Scene, d: map<string, Entry>, name: string, entry: Entry)
    ensures Judge(s, d, name, entry).NewVirtual? ==> name !in d && entry.isVirtual && !NameTaken(s.world, Known(s.world, s.base), name, entry)
  {
    hide NameTaken, RootedAt, UnusableRoot;
  }

  lemma MergedKeeps(s: Scene, k: nat, n: string)
    requires k <= |s.list| && n in DomainsAt(s, k) && Listing(s.list)
    ensures n in Merged(s) && Merged(s)[n] == DomainsAt(s, k)[n]
  {
    hide OutcomeAt, DomainsAt, NewVirtuals;
    DomainsGrow(s, k, |s.list|);
    if n in NewVirtuals(s) {
      var j := VirtualNamed(s, n);
      NewVirtualIsNew(s, j);
      StaysOut(s, j);
    }
  }

  lemma VirtualNamed(s: Scene, n: string) returns (j: nat)
    requires n in NewVirtuals(s)
    ensures j < |s.list| && s.list[j].0 == n && OutcomeAt(s, j) == NewVirtual
  {
    hide OutcomeAt;
    j :| j < |s.list| && OutcomeAt(s, j) == NewVirtual && s.list[j].0 == n;
  }

  lemma MergedIsGrown(s: Scene)
    requires Listing(s.list)
    ensures Grown(s.world, s.base, Merged(s))
  {
    hide Judge, Resolves, Merged, NameTaken;
    var m, end := Merged(s), |s.list|;
    forall n | n in s.base
      ensures n in m && m[n] == s.base[n]
    {
      MergedKeeps(s, 0, n);
    }
    forall n | n in m && n !in s.base
      ensures n !in s.world.env && forall sp | sp in Spellings(s.world, n, m[n]) :: !Resolves(s.world, Known(s.world, s.base), sp)
    {
      var k := NewName(s, n);
      MergedEntry(s, k);
      RegisteredIsFreeAt(s, k);
      FreeSpellings(s.world, Known(s.world, s.base), n, s.list[k].1);
      VirtualSpellings(s.world, n, s.list[k].1);
    }
  }

  lemma VirtualSpellings(w: World, n: string, entry: Entry)
    ensures Spellings(w, n, VIRTUAL_DOMAIN) == {n} && n in Spellings(w, n, entry)
  {}

  lemma RegisteredIsFreeAt(s: Scene, k: nat)
    requires k < |s.list| && (OutcomeAt(s, k).Registered? || OutcomeAt(s, k).NewVirtual?)
    ensures s.list[k].0 !in DomainsAt(s, k) && !NameTaken(s.world, Known(s.world, s.base), s.list[k].0, s.list[k].1)
  {
    hide Judge, NameTaken;
    if OutcomeAt(s, k).Registered? { RegisteredIsFree(s, DomainsAt(s, k), s.list[k].0, s.list[k].1); }
    VirtualIsNew(s, DomainsAt(s, k), s.list[k].0, s.list[k].1);
  }

  lemma FreeSpellings(w: World, known: map<string, Entry>, name: string, entry: Entry)
    requires !NameTaken(w, known, name, entry)
    ensures name !in w.env && forall sp | sp in Spellings(w, name, entry) :: !Resolves(w, known, sp)
  {
    hide Resolves, Spellings;
  }

  lemma NewName(s: Scene, n: string) returns (k: nat)
    requires n in Merged(s) && n !in s.base
    ensures k < |s.list| && s.list[k].0 == n && (OutcomeAt(s, k).Registered? || OutcomeAt(s, k).NewVirtual?)
  {
    hide Judge;
    EntriesStay(s, |s.list|, n);
    if n in DomainsAt(s, |s.list|) {
      k :| 0 <= k < |s.list| && s.list[k].0 == n && OutcomeAt(s, k).Registered?;
    } else {
      k :| k < |s.list| && OutcomeAt(s, k) == NewVirtual && s.list[k].0 == n;
    }
  }

  // ----- which refused names a repeat takes

  /** The private domain joins the config. */
  predicate Comes(s: Scene, k: int) {
    0 <= k < |s.list| && (OutcomeAt(s, k).Registered? || OutcomeAt(s, k).NewVirtual?)
  }

  /** The entry it joins with. */
  function Brought(s: Scene, k: nat): Entry
    requires k < |s.list|
  {
    if OutcomeAt(s, k).NewVirtual? then VIRTUAL_DOMAIN else s.list[k].1
  }

  predicate ComesNamed(s: Scene, sp: string) {
    exists k | 0 <= k < |s.list| :: Comes(s, k) && s.list[k].0 == sp
  }

  /** The joining domains whose content carries the spelling as its name. */
  function NewClaimants(s: Scene, sp: string): set<string> {
    set k | 0 <= k < |s.list| && Comes(s, k) && sp != s.list[k].0 && Canonical(s.world, s.list[k].0, Brought(s, k)) == sp :: s.list[k].0
  }

  /** The joining domains that list the spelling as a former name. */
  function NewListers(s: Scene, sp: string): set<string> {
    set k | 0 <= k < |s.list| && Comes(s, k) && sp != s.list[k].0 && sp in Brought(s, k).aliases
              && Canonical(s.world, s.list[k].0, Brought(s, k)) != sp :: s.list[k].0
  }

  /** Whether a spelling means a domain after the merge, counted on the domains here before it and those that join. */
  predicate ResolvesAfter(s: Scene, sp: string) {
    var w, known := s.world, Known(s.world, s.base);
    || sp in known || ComesNamed(s, sp)
    || |Claimants(w, known, sp)| + |NewClaimants(s, sp)| == 1
    || (Claimants(w, known, sp) == {} && NewClaimants(s, sp) == {} && |Listers(w, known, sp)| + |NewListers(s, sp)| == 1)
  }

  /** The folder is one of a domain here, or of one that is registered. */
  predicate RootedAfter(s: Scene, root: Root) {
    || RootedAt(s.world, s.base, root)
    || exists k | 0 <= k < |s.list| :: OutcomeAt(s, k).Registered? && CanonicalRoot(s.world, s.list[k].1) == Some(root)
  }

  /** A private domain whose name was refused cannot be registered after the merge either: its name still means a domain, or its folder or team state stands in the way. */
  predicate RefusedStill(s: Scene, k: nat)
    requires k < |s.list|
  {
    var w := s.world;
    var (name, entry) := s.list[k];
    || name in w.env
    || (exists sp | sp in Spellings(w, name, entry) :: ResolvesAfter(s, sp))
    || (!entry.isVirtual
        && (UnusableRoot(w, entry).Some? || RootedAfter(s, CanonicalRoot(w, entry).value) || (entry.team && TeamStateFails(s, name))))
  }

  lemma NewcomersAre(s: Scene, n: string)
    requires Listing(s.list)
    ensures n in Known(s.world, Merged(s)) <==> n in Known(s.world, s.base) || ComesNamed(s, n)
    ensures n in Known(s.world, s.base) ==> !ComesNamed(s, n) && Known(s.world, Merged(s))[n] == Known(s.world, s.base)[n]
    ensures forall k | Comes(s, k) && s.list[k].0 == n :: n in Merged(s) && n in Known(s.world, Merged(s)) && Known(s.world, Merged(s))[n] == Brought(s, k)
  {
    hide OutcomeAt, Merged, Resolves, Spellings, NameTaken;
    MergedIsGrown(s);
    if n in Merged(s) && n !in s.base { var k := NewName(s, n); assert Comes(s, k); }
    forall k | Comes(s, k) && s.list[k].0 == n
      ensures n in Merged(s) && Merged(s)[n] == Brought(s, k) && n !in s.base && n !in s.world.env
    {
      MergedEntry(s, k);
      RegisteredIsFreeAt(s, k);
      DomainsGrow(s, 0, k);
      FreeSpellings(s.world, Known(s.world, s.base), n, s.list[k].1);
    }
  }

  lemma ClaimsAfter(s: Scene, sp: string)
    requires Listing(s.list)
    ensures Claimants(s.world, Known(s.world, Merged(s)), sp) == Claimants(s.world, Known(s.world, s.base), sp) + NewClaimants(s, sp)
    ensures Claimants(s.world, Known(s.world, s.base), sp) !! NewClaimants(s, sp)
    ensures Listers(s.world, Known(s.world, Merged(s)), sp) == Listers(s.world, Known(s.world, s.base), sp) + NewListers(s, sp)
    ensures Listers(s.world, Known(s.world, s.base), sp) !! NewListers(s, sp)
  {
    hide OutcomeAt, Merged, Known, Comes, Canonical, Brought;
    var w, after, base := s.world, Known(s.world, Merged(s)), Known(s.world, s.base);
    forall d
      ensures d in Claimants(w, after, sp) <==> d in Claimants(w, base, sp) || d in NewClaimants(s, sp)
      ensures d in Listers(w, after, sp) <==> d in Listers(w, base, sp) || d in NewListers(s, sp)
      ensures !(d in base && ComesNamed(s, d))
    {
      NewcomersAre(s, d);
    }
  }

  /** What a spelling means after the merge is decided by the domains here before it and those that join. */
  lemma ResolvesOnMerged(s: Scene, sp: string)
    requires Listing(s.list)
    ensures Resolves(s.world, Known(s.world, Merged(s)), sp) <==> ResolvesAfter(s, sp)
  {
    hide OutcomeAt, Merged, Known, Claimants, Listers, NewClaimants, NewListers, ComesNamed;
    NewcomersAre(s, sp);
    ClaimsAfter(s, sp);
  }

  lemma TakenOnMerged(s: Scene, k: nat)
    requires k < |s.list| && Listing(s.list)
    ensures NameTaken(s.world, Known(s.world, Merged(s)), s.list[k].0, s.list[k].1)
       <==> s.list[k].0 in s.world.env || exists sp | sp in Spellings(s.world, s.list[k].0, s.list[k].1) :: ResolvesAfter(s, sp)
  {
    hide Resolves, ResolvesAfter, Merged, Known, Spellings;
    forall sp
      ensures Resolves(s.world, Known(s.world, Merged(s)), sp) <==> ResolvesAfter(s, sp)
    {
      ResolvesOnMerged(s, sp);
    }
  }

  lemma RootedOnMerged(s: Scene, root: Root)
    requires Listing(s.list)
    ensures RootedAt(s.world, Merged(s), root) <==> RootedAfter(s, root)
  {
    hide OutcomeAt, Merged, DomainsAt, CanonicalRoot;
    var w, m := s.world, Merged(s);
    VirtualHasNoRoot(w);
    if n :| n in m && CanonicalRoot(w, m[n]) == Some(root) {
      if n !in s.base {
        var k := NewName(s, n);
        MergedEntry(s, k);
        NewVirtualIsNew(s, k);
      } else {
        BaseStays(s, n);
      }
    }
    if n :| n in s.base && CanonicalRoot(w, s.base[n]) == Some(root) { BaseStays(s, n); }
    if k :| 0 <= k < |s.list| && OutcomeAt(s, k).Registered? && CanonicalRoot(w, s.list[k].1) == Some(root) {
      MergedEntry(s, k);
      NewVirtualIsNew(s, k);
    }
  }

  lemma BaseStays(s: Scene, n: string)
    requires n in s.base && Listing(s.list)
    ensures n in Merged(s) && Merged(s)[n] == s.base[n]
  {
    hide Merged;
    MergedKeeps(s, 0, n);
  }

  lemma VirtualHasNoRoot(w: World)
    ensures CanonicalRoot(w, VIRTUAL_DOMAIN) == None
  {}

  predicate Enters(o: Outcome) {
    o.Registered? || o.NewVirtual?
  }

  /** Judged again on the merged config, a private domain is registered exactly when its name was refused and nothing refuses it still. */
  lemma JudgedAgain(s: Scene, k: nat)
    requires k < |s.list| && Listing(s.list)
    ensures Enters(Judge(Again(s), Merged(s), s.list[k].0, s.list[k].1)) <==> OutcomeAt(s, k) == Taken && !RefusedStill(s, k)
  {
    hide Merged, NameTaken, RootedAt, UnusableRoot, CanonicalRoot, DomainsAt, Carried, Spellings, ResolvesAfter, RootedAfter;
    var name, entry := s.list[k].0, s.list[k].1;
    MergedEntry(s, k);
    UnusableHasNoRoot(s.world, entry);
    if OutcomeAt(s, k) == Taken {
      TakenOnMerged(s, k);
      NotCarried(s, k);
      if CanonicalRoot(s.world, entry).Some? { RootedOnMerged(s, CanonicalRoot(s.world, entry).value); }
    } else if name !in Merged(s) && OutcomeAt(s, k) == Elsewhere {
      RootStays(s, k, CanonicalRoot(s.world, entry).value);
    }
  }

  lemma UnusableHasNoRoot(w: World, entry: Entry)
    ensures CanonicalRoot(w, entry).None? ==> UnusableRoot(w, entry).Some?
  {}

  lemma NotCarried(s: Scene, k: nat)
    requires k < |s.list| && Listing(s.list) && OutcomeAt(s, k) == Taken
    ensures s.list[k].0 !in Carried(s)
  {
    hide OutcomeAt;
    if s.list[k].0 in Carried(s) {
      var j: nat :| j < |s.list| && OutcomeAt(s, j) == Registered(true) && s.list[j].0 == s.list[k].0;
      SameIndex(s.list, j, k);
    }
  }

  lemma RootStays(s: Scene, k: nat, root: Root)
    requires k < |s.list| && Listing(s.list) && RootedAt(s.world, DomainsAt(s, k), root)
    ensures RootedAt(s.world, Merged(s), root)
  {
    hide Merged, DomainsAt, CanonicalRoot;
    var d := DomainsAt(s, k);
    var n :| n in d && CanonicalRoot(s.world, d[n]) == Some(root);
    MergedKeeps(s, k, n);
  }

  /** The config stays as the merge left it as long as the repeat registers nothing. */
  lemma {:induction false} AgainUnchanged(s: Scene, k: nat)
    requires k <= |s.list| && forall j: nat | j < k :: !Enters(OutcomeAt(Again(s), j))
    ensures DomainsAt(Again(s), k) == Merged(s)
  {
    hide Judge, Merged, Carried;
    if k > 0 {
      AgainUnchanged(s, k - 1);
      assert OutcomeAt(Again(s), k - 1) == Judge(Again(s), Merged(s), s.list[k - 1].0, s.list[k - 1].1);
    }
  }

  ghost predicate AllRefusedStill(s: Scene, n: nat)
    requires n <= |s.list|
  {
    forall k: nat | k < n && OutcomeAt(s, k) == Taken :: RefusedStill(s, k)
  }

  /** A repeat on the unchanged result registers nothing exactly when every name refused by the merge is refused still. */
  lemma {:induction false} RepeatRegistersNothing(s: Scene, n: nat)
    requires n <= |s.list| && Listing(s.list)
    ensures (forall j: nat | j < n :: !Enters(OutcomeAt(Again(s), j))) <==> AllRefusedStill(s, n)
  {
    hide Judge, Merged, Carried, OutcomeAt, Enters, RefusedStill;
    if n > 0 {
      RepeatRegistersNothing(s, n - 1);
      if forall j: nat | j < n - 1 :: !Enters(OutcomeAt(Again(s), j)) {
        AgainUnchanged(s, n - 1);
        AgainJudges(s, n - 1);
        JudgedAgain(s, n - 1);
      }
    }
  }

  lemma AgainJudges(s: Scene, k: nat)
    requires k < |s.list|
    ensures Again(s).list == s.list
    ensures OutcomeAt(Again(s), k) == Judge(Again(s), DomainsAt(Again(s), k), s.list[k].0, s.list[k].1)
  {
    hide Judge, Merged, Carried;
  }

  // ----- a repeat that registers

  function Plain(path: Path): Root {
    [path]
  }

  function PlainWorld(): World {
    World(Plain, root => true, path => None, ["private"], map[], true, {})
  }

  /** Here `a` was once `old`; privately `c` was too, and another domain is called `old`. */
  function SharedAlias(): Scene {
    Scene(PlainWorld(), map["a" := A_ONCE_OLD], {}, [("c", C_ONCE_OLD), ("old", Entry(false, Some("/old"), false, []))], {})
  }

  const A_ONCE_OLD := Entry(false, Some("/a"), false, ["old"])
  const C_ONCE_OLD := Entry(false, Some("/c"), false, ["old"])

  /** Before the merge `old` means `a`; with `c` beside it, nothing. */
  lemma OldMeans()
    ensures var w, one := PlainWorld(), map["a" := A_ONCE_OLD];
            Resolves(w, Known(w, one), "old") && !Resolves(w, Known(w, one), "c")
    ensures var w, two := PlainWorld(), map["a" := A_ONCE_OLD, "c" := C_ONCE_OLD];
            !Resolves(w, Known(w, two), "old")
  {
    var w := PlainWorld();
    var one, two := map["a" := A_ONCE_OLD], map["a" := A_ONCE_OLD, "c" := C_ONCE_OLD];
    assert Known(w, one) == one && Known(w, two) == two;
    assert Claimants(w, one, "old") == {} && Claimants(w, one, "c") == {} && Claimants(w, two, "old") == {};
    assert Listers(w, one, "old") == {"a"} && Listers(w, one, "c") == {};
    assert Listers(w, two, "old") == {"a", "c"};
  }

  lemma PlainSpellings(name: string, entry: Entry)
    ensures Spellings(PlainWorld(), name, entry) == {name}
  {}

  lemma FirstRun()
    ensures var s := SharedAlias();
            && OutcomeAt(s, 0) == Registered(false) && OutcomeAt(s, 1) == Taken
            && Merged(s) == map["a" := A_ONCE_OLD, "c" := C_ONCE_OLD]
  {
    var s := SharedAlias();
    hide Resolves, Known, Spellings;
    OldMeans();
    PlainSpellings("c", s.list[0].1);
    PlainSpellings("old", s.list[1].1);
    assert Plain("/a")[0] != Plain("/c")[0] by { assert "/a"[1] != "/c"[1]; }
    assert !(s.world.folder <= Plain("/c")) by { assert |s.world.folder[0]| != |Plain("/c")[0]|; }
    assert CanonicalRoot(s.world, s.list[0].1) == Some(Plain("/c")) && CanonicalRoot(s.world, A_ONCE_OLD) == Some(Plain("/a"));
    assert OutcomeAt(s, 0) == Registered(false);
    assert DomainsAt(s, 1) == map["a" := A_ONCE_OLD, "c" := C_ONCE_OLD];
    assert OutcomeAt(s, 1) == Taken;
    assert DomainsAt(s, 2) == DomainsAt(s, 1);
    assert NewVirtuals(s) == {};
  }

  /** A repeat can register: the first run refuses `old` as an alias of `a`, registers `c` with the same alias, and so frees the name. */
  lemma RepeatCanRegister()
    ensures var s := SharedAlias();
            && OutcomeAt(s, 0) == Registered(false) && OutcomeAt(s, 1) == Taken
            && OutcomeAt(Again(s), 0) == Already && OutcomeAt(Again(s), 1) == Registered(false)
  {
    var s := SharedAlias();
    FirstRun();
    var again := Again(s);
    hide Resolves, Known, Spellings, Merged, Carried;
    OldMeans();
    PlainSpellings("old", s.list[1].1);
    assert OutcomeAt(again, 0) == Already;
    assert DomainsAt(again, 1) == again.base;
  }
}
