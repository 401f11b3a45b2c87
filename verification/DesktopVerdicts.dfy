/** What becomes of each private domain, said of the two lists and the file system. */
module DesktopVerdicts {
  import opened Options
  import opened DesktopState

  // ----- the folder of an entry

  /** The folder lies in the private one. */
  predicate LiesInside(w: World, entry: Entry) {
    entry.path.Some? && w.folder <= w.canonical(entry.path.value)
  }

  /** The folder is there and will stay when the private one is moved. */
  predicate StaysThere(w: World, entry: Entry) {
    entry.path.Some? && !(w.folder <= w.canonical(entry.path.value)) && w.isDir(w.canonical(entry.path.value))
  }

  /** The entry names no folder, or one that is missing. */
  predicate NoFolder(w: World, entry: Entry) {
    entry.path.None? || (!(w.folder <= w.canonical(entry.path.value)) && !w.isDir(w.canonical(entry.path.value)))
  }

  predicate SharesFolder(w: World, a: Entry, b: Entry) {
    a.path.Some? && b.path.Some? && w.canonical(a.path.value) == w.canonical(b.path.value)
  }

  /** Both virtual, or both files, and at one folder or both at none. */
  predicate Alike(w: World, a: Entry, b: Entry) {
    a.isVirtual == b.isVirtual && (SharesFolder(w, a, b) || (a.path.None? && b.path.None?))
  }

  // ----- a name this machine has too

  predicate Has(s: Scene, k: nat) {
    k < |s.list| && s.list[k].0 in s.base
  }

  predicate Otherwise(s: Scene, k: nat) {
    Has(s, k) && !Alike(s.world, s.base[s.list[k].0], s.list[k].1)
  }

  predicate AlreadyHere(s: Scene, k: nat) {
    Has(s, k) && !Otherwise(s, k) && !s.list[k].1.isVirtual
  }

  predicate VirtualHere(s: Scene, k: nat) {
    Has(s, k) && !Otherwise(s, k) && s.list[k].1.isVirtual
  }

  predicate InsideHere(s: Scene, k: nat) {
    Otherwise(s, k) && !s.list[k].1.isVirtual && LiesInside(s.world, s.list[k].1)
  }

  predicate MissingHere(s: Scene, k: nat) {
    Otherwise(s, k) && !s.list[k].1.isVirtual && NoFolder(s.world, s.list[k].1)
  }

  /** Registered here and privately in two ways, and the private one is real. */
  predicate Clashes(s: Scene, k: nat) {
    Otherwise(s, k) && (s.list[k].1.isVirtual || StaysThere(s.world, s.list[k].1))
  }

  // ----- a name this machine does not have

  predicate IsNew(s: Scene, k: nat) {
    k < |s.list| && s.list[k].0 !in s.base
  }

  /** Its folder is one of a domain here, or of a private one that joined before it. */
  predicate FolderTaken(s: Scene, k: nat)
    decreases k, 0
  {
    && k < |s.list|
    && ((exists n | n in s.base :: SharesFolder(s.world, s.base[n], s.list[k].1))
        || exists j: nat | j < k :: Joins(s, j) && SharesFolder(s.world, s.list[j].1, s.list[k].1))
  }

  predicate NameMeansAnother(s: Scene, k: nat) {
    k < |s.list| && NameTaken(s.world, Known(s.world, s.base), s.list[k].0, s.list[k].1)
  }

  predicate FoundElsewhere(s: Scene, k: nat) {
    IsNew(s, k) && !s.list[k].1.isVirtual && FolderTaken(s, k)
  }

  /** A file domain joins when its folder is free and stays, its name means nothing here, and its team state can come along. */
  predicate Joins(s: Scene, k: nat)
    decreases k, 1
  {
    && IsNew(s, k) && !s.list[k].1.isVirtual && !FolderTaken(s, k) && !NameMeansAnother(s, k)
    && StaysThere(s.world, s.list[k].1) && !(s.list[k].1.team && TeamStateFails(s, s.list[k].0))
  }

  predicate JoinsWithState(s: Scene, k: nat) {
    Joins(s, k) && s.list[k].1.team && s.list[k].0 in s.team
  }

  predicate JoinsVirtual(s: Scene, k: nat) {
    IsNew(s, k) && s.list[k].1.isVirtual && !NameMeansAnother(s, k)
  }

  /** A new name cannot join. */
  predicate Refused(s: Scene, k: nat) {
    && IsNew(s, k) && !FoundElsewhere(s, k)
    && (|| NameMeansAnother(s, k)
        || (!s.list[k].1.isVirtual && (!StaysThere(s.world, s.list[k].1) || (s.list[k].1.team && TeamStateFails(s, s.list[k].0)))))
  }

  predicate Conflicted(s: Scene, k: nat) {
    Clashes(s, k) || Refused(s, k)
  }

  predicate LeftAlone(s: Scene, k: nat) {
    FoundElsewhere(s, k) || MissingHere(s, k)
  }

  // ----- the loop's verdicts are these

  /** The verdict of the loop, with its case. */
  ghost predicate VerdictIs(s: Scene, k: nat, o: Outcome) {
    && (IsConflict(o) <==> Conflicted(s, k)) && (IsKept(o) <==> LeftAlone(s, k)) && (o.KeptInside? <==> InsideHere(s, k))
    && (o.Already? <==> AlreadyHere(s, k)) && (o.SameVirtual? <==> VirtualHere(s, k)) && (o.NewVirtual? <==> JoinsVirtual(s, k))
    && (o.Registered? <==> Joins(s, k)) && (o == Registered(true) <==> JoinsWithState(s, k))
  }

  lemma FolderOf(w: World, entry: Entry)
    ensures entry.path.Some? ==> CanonicalRoot(w, entry) == Some(w.canonical(entry.path.value))
    ensures entry.path.None? ==> CanonicalRoot(w, entry) == None
    ensures UnusableRoot(w, entry).None? <==> StaysThere(w, entry)
    ensures UnusableRoot(w, entry).Some? ==> (UnusableRoot(w, entry).value.Inside? <==> LiesInside(w, entry))
    ensures LiesInside(w, entry) || NoFolder(w, entry) <==> !StaysThere(w, entry)
    ensures !(LiesInside(w, entry) && NoFolder(w, entry))
  {}

  lemma AlikeIs(w: World, a: Entry, b: Entry)
    ensures SameRegistration(w, a, b) <==> Alike(w, a, b)
    ensures b.path.Some? ==> (CanonicalRoot(w, a) == CanonicalRoot(w, b) <==> SharesFolder(w, a, b))
  {}

  lemma NameAt(s: Scene, k: nat)
    requires k < |s.list| && Listing(s.list)
    ensures s.list[k].0 in DomainsAt(s, k) <==> Has(s, k)
    ensures Has(s, k) ==> DomainsAt(s, k)[s.list[k].0] == s.base[s.list[k].0]
  {
    hide DomainsAt, OutcomeAt;
    EntriesStay(s, k, s.list[k].0);
    if j: nat :| j < k && s.list[j].0 == s.list[k].0 { SameIndex(s.list, j, k); }
  }

  lemma {:induction false} FolderTakenIs(s: Scene, k: nat, n: nat)
    requires k <= n < |s.list| && Listing(s.list) && s.list[n].1.path.Some?
    requires forall j: nat | j < k :: VerdictIs(s, j, OutcomeAt(s, j))
    ensures RootedAt(s.world, DomainsAt(s, k), s.world.canonical(s.list[n].1.path.value))
       <==> || (exists b | b in s.base :: SharesFolder(s.world, s.base[b], s.list[n].1))
            || exists j: nat | j < k :: Joins(s, j) && SharesFolder(s.world, s.list[j].1, s.list[n].1)
    decreases k
  {
    hide OutcomeAt, DomainsAt, CanonicalRoot, SharesFolder, Joins, VerdictIs;
    var w, entry := s.world, s.list[n].1;
    FolderOf(w, entry);
    if k == 0 {
      forall b | b in s.base
        ensures CanonicalRoot(w, s.base[b]) == Some(w.canonical(entry.path.value)) <==> SharesFolder(w, s.base[b], entry)
      {
        AlikeIs(w, s.base[b], entry);
      }
      DomainsStart(s);
    } else {
      FolderTakenIs(s, k - 1, n);
      DomainsStep(s, k - 1);
      AlikeIs(w, s.list[k - 1].1, entry);
      assert VerdictIs(s, k - 1, OutcomeAt(s, k - 1));
      JoinsIs(s, k - 1, OutcomeAt(s, k - 1));
      var d, name := DomainsAt(s, k - 1), s.list[k - 1].0;
      if OutcomeAt(s, k - 1).Registered? {
        RootedWith(w, d, name, s.list[k - 1].1, w.canonical(entry.path.value));
      }
    }
  }

  lemma JoinsIs(s: Scene, k: nat, o: Outcome)
    requires VerdictIs(s, k, o)
    ensures o.Registered? <==> Joins(s, k)
  {
    hide Joins;
  }

  lemma DomainsStart(s: Scene)
    ensures DomainsAt(s, 0) == s.base
  {}

  lemma DomainsStep(s: Scene, k: nat)
    requires k < |s.list|
    ensures DomainsAt(s, k + 1) == if OutcomeAt(s, k).Registered? then DomainsAt(s, k)[s.list[k].0 := s.list[k].1] else DomainsAt(s, k)
    ensures OutcomeAt(s, k).Registered? ==> s.list[k].0 !in DomainsAt(s, k)
  {
    hide Judge;
    JudgeNew(s, DomainsAt(s, k), s.list[k].0, s.list[k].1);
  }

  lemma RootedWith(w: World, d: map<string, Entry>, name: string, entry: Entry, root: Root)
    requires name !in d
    ensures RootedAt(w, d[name := entry], root) <==> RootedAt(w, d, root) || CanonicalRoot(w, entry) == Some(root)
  {
    hide CanonicalRoot;
    var e := d[name := entry];
    if CanonicalRoot(w, entry) == Some(root) { assert name in e && e[name] == entry; }
    if n :| n in d && CanonicalRoot(w, d[n]) == Some(root) { assert n in e && e[n] == d[n]; }
  }

  /** Every private domain comes to the verdict its name, its folder and its team state call for. */
  lemma {:induction false} VerdictsAre(s: Scene, k: nat)
    requires k < |s.list| && Listing(s.list)
    ensures VerdictIs(s, k, OutcomeAt(s, k))
    decreases k
  {
    hide DomainsAt, VerdictIs, CanonicalRoot, SharesFolder, NameTaken, RootedAt, UnusableRoot, Joins, FolderTaken, Known;
    forall j: nat | j < k
      ensures VerdictIs(s, j, OutcomeAt(s, j))
    {
      VerdictsAre(s, j);
    }
    NameAt(s, k);
    if s.list[k].1.path.Some? {
      FolderTakenIs(s, k, k);
      TakenIs(s, k);
    }
    VerdictHere(s, k);
  }

  ghost predicate FolderTakenAt(s: Scene, k: nat)
    requires k < |s.list| && s.list[k].1.path.Some?
  {
    RootedAt(s.world, DomainsAt(s, k), s.world.canonical(s.list[k].1.path.value))
  }

  lemma VerdictHere(s: Scene, k: nat)
    requires k < |s.list|
    requires s.list[k].0 in DomainsAt(s, k) <==> Has(s, k)
    requires Has(s, k) ==> DomainsAt(s, k)[s.list[k].0] == s.base[s.list[k].0]
    requires s.list[k].1.path.Some? ==> (FolderTakenAt(s, k) <==> FolderTaken(s, k))
    ensures VerdictIs(s, k, OutcomeAt(s, k))
  {
    FolderOf(s.world, s.list[k].1);
    if Has(s, k) { VerdictHad(s, k); } else { VerdictNew(s, k); }
  }

  lemma VerdictHad(s: Scene, k: nat)
    requires Has(s, k) && s.list[k].0 in DomainsAt(s, k) && DomainsAt(s, k)[s.list[k].0] == s.base[s.list[k].0]
    ensures VerdictIs(s, k, OutcomeAt(s, k))
  {
    FolderOf(s.world, s.list[k].1);
    AlikeIs(s.world, s.base[s.list[k].0], s.list[k].1);
    JoinsWhen(s, k);
    hide DomainsAt, NameTaken, RootedAt, UnusableRoot, CanonicalRoot, Alike, StaysThere, LiesInside, NoFolder, Known, FolderTaken, SameRegistration, Joins, NameMeansAnother;
  }

  lemma VerdictNew(s: Scene, k: nat)
    requires k < |s.list| && !Has(s, k) && s.list[k].0 !in DomainsAt(s, k)
    requires s.list[k].1.path.Some? ==> (FolderTakenAt(s, k) <==> FolderTaken(s, k))
    ensures VerdictIs(s, k, OutcomeAt(s, k))
  {
    FolderOf(s.world, s.list[k].1);
    TakenIs(s, k);
    JoinsWhen(s, k);
    hide DomainsAt, NameTaken, RootedAt, UnusableRoot, CanonicalRoot, Alike, StaysThere, LiesInside, NoFolder, Known, FolderTaken, SameRegistration, Joins;
  }

  lemma JoinsWhen(s: Scene, k: nat)
    requires k < |s.list|
    ensures Joins(s, k) <==>
              && IsNew(s, k) && !s.list[k].1.isVirtual && !FolderTaken(s, k) && !NameMeansAnother(s, k)
              && StaysThere(s.world, s.list[k].1) && !(s.list[k].1.team && TeamStateFails(s, s.list[k].0))
  {}

  lemma TakenIs(s: Scene, k: nat)
    requires k < |s.list|
    ensures FolderTaken(s, k)
       <==> || (exists b | b in s.base :: SharesFolder(s.world, s.base[b], s.list[k].1))
            || exists j: nat | j < k :: Joins(s, j) && SharesFolder(s.world, s.list[j].1, s.list[k].1)
    ensures s.list[k].1.path.None? ==> !FolderTaken(s, k)
  {
    hide Joins;
  }

  // ----- the lists

  /** The names among the first `n` that are so, in order. */
  function NamesOf(s: Scene, so: (Scene, nat) -> bool, n: nat): seq<string>
    requires n <= |s.list|
  {
    if n == 0 then [] else NamesOf(s, so, n - 1) + (if so(s, n - 1) then [s.list[n - 1].0] else [])
  }

  lemma {:induction false} ListsAre(s: Scene, pick: Outcome -> bool, so: (Scene, nat) -> bool, n: nat)
    requires n <= |s.list| && forall k: nat | k < n :: pick(OutcomeAt(s, k)) <==> so(s, k)
    ensures Names(s, pick, n) == NamesOf(s, so, n)
  {
    hide OutcomeAt;
    if n > 0 { ListsAre(s, pick, so, n - 1); }
  }

  /** A name is in a list exactly when it is so. */
  lemma {:induction false} NamesOfAre(s: Scene, so: (Scene, nat) -> bool, n: nat, name: string)
    requires n <= |s.list|
    ensures name in NamesOf(s, so, n) <==> exists k: nat :: k < n && s.list[k].0 == name && so(s, k)
  {
    if n > 0 { NamesOfAre(s, so, n - 1, name); }
  }
}
