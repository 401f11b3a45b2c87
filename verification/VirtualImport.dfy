/** Engrams of a virtual domain moved into another copy of it, never over one that is there. */
module VirtualImport {
  import opened Options

  /** The engrams of a domain, by path. */
  type Engrams = map<string, string>

  /** The engrams another copy exports, by path and text, in the order the import walks them. */
  type Export = seq<(string, string)>

  /** How an engram's text is read, `None` when it cannot be, and which texts the store does not take. */
  datatype Engine = Engine(permalink: (string, string) -> Option<string>, refuses: (string, string) -> bool)

  predicate Distinct(there: Export) {
    forall i, j | 0 <= i < j < |there| :: there[i].0 != there[j].0
  }

  /** Another engram of the copy has the permalink. */
  predicate PermalinkHeld(e: Engine, here: Engrams, path: string, text: string) {
    e.permalink(path, text).Some? && exists p | p in here :: p != path && e.permalink(p, here[p]) == e.permalink(path, text)
  }

  /** The path or the permalink is one this copy has. */
  predicate Collides(e: Engine, here: Engrams, path: string, text: string) {
    path in here || PermalinkHeld(e, here, path, text)
  }

  /** What becomes of one engram. */
  datatype Fate = Written | Skipped | Warned

  /** The engrams here once the first `n` were walked. */
  function Stored(e: Engine, here: Engrams, there: Export, n: nat): Engrams
    requires n <= |there|
    decreases n, 0
  {
    if n == 0 then here
    else
      var before := Stored(e, here, there, n - 1);
      if FateAt(e, here, there, n - 1) == Written then before[there[n - 1].0 := there[n - 1].1] else before
  }

  /** Collisions are settled against what was here before the import; the store then takes each permalink once. */
  function FateAt(e: Engine, here: Engrams, there: Export, k: nat): Fate
    requires k < |there|
    decreases k, 1
  {
    var (path, text) := there[k];
    if e.permalink(path, text).None? then Warned
    else if Collides(e, here, path, text) then Skipped
    else if e.refuses(path, text) || PermalinkHeld(e, Stored(e, here, there, k), path, text) then Warned
    else Written
  }

  function Imported(e: Engine, here: Engrams, there: Export): Engrams {
    Stored(e, here, there, |there|)
  }

  /** The paths among the first `n` with this fate, in order. */
  function Paths(e: Engine, here: Engrams, there: Export, fate: Fate, n: nat): seq<string>
    requires n <= |there|
  {
    if n == 0 then []
    else Paths(e, here, there, fate, n - 1) + (if FateAt(e, here, there, n - 1) == fate then [there[n - 1].0] else [])
  }

  /** The text exported under a path. */
  function TextOf(there: Export, path: string): Option<string> {
    if there == [] then None else if there[0].0 == path then Some(there[0].1) else TextOf(there[1..], path)
  }

  /** The two copies hold different texts under the path. */
  predicate Differs(after: Engrams, there: Export, path: string) {
    TextOf(there, path) != (if path in after then Some(after[path]) else None)
  }

  function DifferingIn(after: Engrams, there: Export, paths: seq<string>): seq<string> {
    if paths == [] then []
    else
      var last := paths[|paths| - 1];
      DifferingIn(after, there, paths[..|paths| - 1]) + (if Differs(after, there, last) then [last] else [])
  }

  /** The skipped engrams that differ from what is here after the import, in order. */
  function Differing(e: Engine, here: Engrams, there: Export): seq<string> {
    DifferingIn(Imported(e, here, there), there, Paths(e, here, there, Skipped, |there|))
  }

  // ----- nothing is lost

  /** Nothing here is overwritten. */
  lemma {:induction false} StoredKeeps(e: Engine, here: Engrams, there: Export, n: nat, path: string)
    requires n <= |there| && path in here
    ensures path in Stored(e, here, there, n) && Stored(e, here, there, n)[path] == here[path]
  {
    hide PermalinkHeld;
    if n > 0 { StoredKeeps(e, here, there, n - 1, path); }
  }

  /** What is here after `n`: what was here before, and the written engrams with their texts. */
  lemma {:induction false} StoredAre(e: Engine, here: Engrams, there: Export, n: nat, path: string)
    requires n <= |there| && Distinct(there)
    ensures path in Stored(e, here, there, n) <==> path in here || exists k :: 0 <= k < n && FateAt(e, here, there, k) == Written && there[k].0 == path
    ensures forall k | 0 <= k < n && FateAt(e, here, there, k) == Written && there[k].0 == path :: Stored(e, here, there, n)[path] == there[k].1
  {
    hide FateAt;
    if n > 0 { StoredAre(e, here, there, n - 1, path); }
  }

  lemma {:induction false} StoredGrows(e: Engine, here: Engrams, there: Export, n: nat, m: nat, path: string)
    requires n <= m <= |there| && Distinct(there) && path in Stored(e, here, there, n)
    ensures path in Stored(e, here, there, m) && Stored(e, here, there, m)[path] == Stored(e, here, there, n)[path]
    decreases m
  {
    hide PermalinkHeld;
    if n < m {
      StoredGrows(e, here, there, n, m - 1, path);
      StoredAre(e, here, there, m - 1, path);
    }
  }

  lemma {:induction false} PathsAre(e: Engine, here: Engrams, there: Export, fate: Fate, n: nat, path: string)
    requires n <= |there|
    ensures path in Paths(e, here, there, fate, n) <==> exists k :: 0 <= k < n && FateAt(e, here, there, k) == fate && there[k].0 == path
  {
    hide FateAt;
    if n > 0 { PathsAre(e, here, there, fate, n - 1, path); }
  }

  lemma {:induction false} DifferingAre(after: Engrams, there: Export, paths: seq<string>, path: string)
    ensures path in DifferingIn(after, there, paths) <==> path in paths && Differs(after, there, path)
  {
    hide Differs;
    if paths != [] {
      DifferingAre(after, there, paths[..|paths| - 1], path);
      assert paths == paths[..|paths| - 1] + [paths[|paths| - 1]];
    }
  }

  lemma {:induction false} TextIs(there: Export, k: nat)
    requires k < |there| && Distinct(there)
    ensures TextOf(there, there[k].0) == Some(there[k].1)
  {
    if k > 0 {
      assert there[1..][k - 1] == there[k];
      TextIs(there[1..], k - 1);
    }
  }

  /** Every exported engram has one fate: it is here with its text, or listed as differing, or warned about; and nothing else came. */
  lemma ImportAccounts(e: Engine, here: Engrams, there: Export, k: nat)
    requires k < |there| && Distinct(there)
    ensures var after := Imported(e, here, there); var (path, text) := there[k];
            match FateAt(e, here, there, k)
            case Written => path !in here && path in after && after[path] == text && path !in Differing(e, here, there)
            case Skipped => (path in after && after[path] == text) <==> path !in Differing(e, here, there)
            case Warned => path in Paths(e, here, there, Warned, |there|)
    ensures forall path :: path in Imported(e, here, there) <==> path in here || path in Paths(e, here, there, Written, |there|)
  {
    hide FateAt, Imported;
    StoredIsImported(e, here, there);
    forall path
      ensures path in Imported(e, here, there) <==> path in here || path in Paths(e, here, there, Written, |there|)
    {
      StoredAre(e, here, there, |there|, path);
      PathsAre(e, here, there, Written, |there|, path);
    }
    var path := there[k].0;
    StoredAre(e, here, there, |there|, path);
    PathsAre(e, here, there, Warned, |there|, path);
    PathsAre(e, here, there, Skipped, |there|, path);
    DifferingAre(Imported(e, here, there), there, Paths(e, here, there, Skipped, |there|), path);
    TextIs(there, k);
    if j :| 0 <= j < |there| && FateAt(e, here, there, j) == Skipped && there[j].0 == path { SamePath(there, j, k); }
    if FateAt(e, here, there, k) == Written { WrittenIsNew(e, here, there, k); }
  }

  lemma SamePath(there: Export, j: nat, k: nat)
    requires j < |there| && k < |there| && Distinct(there) && there[j].0 == there[k].0
    ensures j == k
  {}

  lemma StoredIsImported(e: Engine, here: Engrams, there: Export)
    ensures Imported(e, here, there) == Stored(e, here, there, |there|)
  {}

  lemma WrittenIsNew(e: Engine, here: Engrams, there: Export, k: nat)
    requires k < |there| && FateAt(e, here, there, k) == Written
    ensures there[k].0 !in here
  {
    hide PermalinkHeld;
  }

  // ----- the same import again

  lemma HeldStays(e: Engine, here: Engrams, after: Engrams, path: string, text: string)
    requires PermalinkHeld(e, here, path, text) && forall p | p in here :: p in after && after[p] == here[p]
    ensures PermalinkHeld(e, after, path, text)
  {
    var p :| p in here && p != path && e.permalink(p, here[p]) == e.permalink(path, text);
    assert p in after;
  }

  lemma NotWrittenAgain(e: Engine, here: Engrams, there: Export, k: nat)
    requires k < |there| && Distinct(there)
    ensures FateAt(e, Imported(e, here, there), there, k) != Written
  {
    hide PermalinkHeld, Stored;
    var after := Imported(e, here, there);
    var (path, text) := there[k];
    StoredIsImported(e, here, there);
    forall p | p in here
      ensures p in after && after[p] == here[p]
    {
      StoredKeeps(e, here, there, |there|, p);
    }
    if FateAt(e, here, there, k) == Written {
      StoredAre(e, here, there, |there|, path);
    } else if PermalinkHeld(e, here, path, text) {
      HeldStays(e, here, after, path, text);
    } else if PermalinkHeld(e, Stored(e, here, there, k), path, text) {
      forall p | p in Stored(e, here, there, k)
        ensures p in after && after[p] == Stored(e, here, there, k)[p]
      {
        StoredGrows(e, here, there, k, |there|, p);
      }
      HeldStays(e, Stored(e, here, there, k), after, path, text);
    }
  }

  lemma {:induction false} StoredAgain(e: Engine, here: Engrams, there: Export, n: nat)
    requires n <= |there| && Distinct(there)
    ensures Stored(e, Imported(e, here, there), there, n) == Imported(e, here, there)
    ensures Paths(e, Imported(e, here, there), there, Written, n) == []
  {
    hide FateAt, Imported;
    if n > 0 {
      StoredAgain(e, here, there, n - 1);
      NotWrittenAgain(e, here, there, n - 1);
    }
  }

  /** Importing the same engrams again writes nothing and changes nothing. */
  lemma ImportAgain(e: Engine, here: Engrams, there: Export)
    requires Distinct(there)
    ensures Paths(e, Imported(e, here, there), there, Written, |there|) == []
    ensures Imported(e, Imported(e, here, there), there) == Imported(e, here, there)
  {
    hide Stored, Paths;
    StoredAgain(e, here, there, |there|);
    StoredIsImported(e, Imported(e, here, there), there);
  }

  /** A second engram with a permalink that came with the first is warned about once; on a repeat it is a collision like any other. */
  lemma TwinIsSkippedAgain(e: Engine, here: Engrams, there: Export, i: nat, k: nat)
    requires i < k < |there| && Distinct(there) && FateAt(e, here, there, i) == Written && there[k].0 !in here
    requires e.permalink(there[k].0, there[k].1) == e.permalink(there[i].0, there[i].1)
    ensures FateAt(e, here, there, k) == Warned || FateAt(e, here, there, k) == Skipped
    ensures FateAt(e, Imported(e, here, there), there, k) == Skipped
  {
    hide Stored;
    StoredAre(e, here, there, k, there[i].0);
    StoredAre(e, here, there, |there|, there[i].0);
    StoredIsImported(e, here, there);
    assert e.permalink(there[i].0, there[i].1).Some?;
  }

  // ----- the import, in its two passes

  /** The engram is left for the writes once collisions are settled. */
  predicate IsNote(e: Engine, here: Engrams, note: (string, string)) {
    e.permalink(note.0, note.1).Some? && !Collides(e, here, note.0, note.1)
  }

  function Notes(e: Engine, here: Engrams, there: Export, n: nat): Export
    requires n <= |there|
  {
    if n == 0 then [] else Notes(e, here, there, n - 1) + (if IsNote(e, here, there[n - 1]) then [there[n - 1]] else [])
  }

  /** The exported engrams that could not be read. */
  function Unread(e: Engine, there: Export, n: nat): nat
    requires n <= |there|
  {
    if n == 0 then 0 else Unread(e, there, n - 1) + (if e.permalink(there[n - 1].0, there[n - 1].1).None? then 1 else 0)
  }

  /** The store takes the engram. */
  predicate Takes(e: Engine, at: Engrams, note: (string, string)) {
    !e.refuses(note.0, note.1) && !PermalinkHeld(e, at, note.0, note.1)
  }

  /** The writes in order: the engrams afterwards, and how many were taken. */
  function Writes(e: Engine, at: Engrams, notes: Export, n: nat): (Engrams, nat)
    requires n <= |notes|
  {
    if n == 0 then (at, 0)
    else
      var (before, taken) := Writes(e, at, notes, n - 1);
      if Takes(e, before, notes[n - 1]) then (before[notes[n - 1].0 := notes[n - 1].1], taken + 1) else (before, taken)
  }

  lemma {:induction false} WritesPrefix(e: Engine, at: Engrams, notes: Export, note: (string, string), n: nat)
    requires n <= |notes|
    ensures Writes(e, at, notes + [note], n) == Writes(e, at, notes, n)
  {
    hide Takes;
    if n > 0 { WritesPrefix(e, at, notes, note, n - 1); }
  }

  lemma WritesNext(e: Engine, at: Engrams, notes: Export, note: (string, string))
    ensures var (before, taken) := Writes(e, at, notes, |notes|);
            Writes(e, at, notes + [note], |notes| + 1)
            == if Takes(e, before, note) then (before[note.0 := note.1], taken + 1) else (before, taken)
  {
    hide Takes;
    WritesPrefix(e, at, notes, note, |notes|);
    assert (notes + [note])[|notes|] == note;
  }

  lemma FateIs(e: Engine, here: Engrams, there: Export, k: nat)
    requires k < |there|
    ensures var (path, text) := there[k];
            FateAt(e, here, there, k)
            == if IsNote(e, here, there[k]) then (if Takes(e, Stored(e, here, there, k), there[k]) then Written else Warned)
               else if e.permalink(path, text).None? then Warned else Skipped
  {
    hide PermalinkHeld, Stored;
  }

  /** The two passes leave what the fates say, and count what they count. */
  lemma {:induction false} PassesAre(e: Engine, here: Engrams, there: Export, n: nat)
    requires n <= |there|
    ensures var notes := Notes(e, here, there, n);
            var (after, taken) := Writes(e, here, notes, |notes|);
            && after == Stored(e, here, there, n) && taken == |Paths(e, here, there, Written, n)| && taken <= |notes|
            && |notes| - taken + Unread(e, there, n) == |Paths(e, here, there, Warned, n)|
  {
    hide FateAt, IsNote, Takes, Writes;
    WritesNone(e, here);
    if n > 0 {
      PassesAre(e, here, there, n - 1);
      FateIs(e, here, there, n - 1);
      var notes := Notes(e, here, there, n - 1);
      WritesNext(e, here, notes, there[n - 1]);
      NoteIsRead(e, here, there[n - 1]);
      if IsNote(e, here, there[n - 1]) {
        assert Notes(e, here, there, n) == notes + [there[n - 1]];
      } else {
        assert Notes(e, here, there, n) == notes;
      }
    }
  }

  lemma WritesNone(e: Engine, at: Engrams)
    ensures Writes(e, at, [], 0) == (at, 0)
  {}

  lemma NoteIsRead(e: Engine, here: Engrams, note: (string, string))
    ensures IsNote(e, here, note) ==> e.permalink(note.0, note.1).Some?
  {}

  /** Collisions are settled against the engrams that were here, then the rest is written, one after the other. */
  method ImportDomain(e: Engine, here: Engrams, there: Export) returns (after: Engrams, written: nat, collisions: seq<string>, warnings: nat)
    ensures after == Imported(e, here, there)
    ensures written == |Paths(e, here, there, Written, |there|)|
    ensures collisions == Paths(e, here, there, Skipped, |there|)
    ensures warnings == |Paths(e, here, there, Warned, |there|)|
  {
    hide Collides, PermalinkHeld, FateAt, Takes;
    collisions, warnings, written, after := [], 0, 0, here;
    var notes: Export := [];
    for k := 0 to |there|
      invariant collisions == Paths(e, here, there, Skipped, k)
      invariant notes == Notes(e, here, there, k) && warnings == Unread(e, there, k)
    {
      FateIs(e, here, there, k);
      var (path, text) := there[k];
      if e.permalink(path, text).None? {
        warnings := warnings + 1;
      } else if Collides(e, here, path, text) {
        collisions := collisions + [path];
      } else {
        notes := notes + [there[k]];
      }
    }
    PassesAre(e, here, there, |there|);
    for i := 0 to |notes|
      invariant (after, written) == Writes(e, here, notes, i) && written <= i
      invariant warnings == Unread(e, there, |there|) + i - written
    {
      TakesIs(e, after, notes[i]);
      var (path, text) := notes[i];
      if e.refuses(path, text) || PermalinkHeld(e, after, path, text) {
        warnings := warnings + 1;
      } else {
        after, written := after[path := text], written + 1;
      }
    }
  }

  lemma TakesIs(e: Engine, at: Engrams, note: (string, string))
    ensures Takes(e, at, note) == !(e.refuses(note.0, note.1) || PermalinkHeld(e, at, note.0, note.1))
  {}

  lemma DifferingIs(e: Engine, here: Engrams, there: Export)
    ensures Differing(e, here, there) == DifferingIn(Imported(e, here, there), there, Paths(e, here, there, Skipped, |there|))
  {}

  /** How many of the collisions hold another text here. */
  method CountDiffering(after: Engrams, there: Export, collisions: seq<string>) returns (count: nat)
    ensures count == |DifferingIn(after, there, collisions)|
  {
    hide Differs;
    count := 0;
    for i := 0 to |collisions|
      invariant count == |DifferingIn(after, there, collisions[..i])|
    {
      assert collisions[..i + 1][..i] == collisions[..i];
      if Differs(after, there, collisions[i]) { count := count + 1; }
    }
    assert collisions[..|collisions|] == collisions;
  }

  // ----- what is written

  /** Some engram of the copy has this permalink. */
  ghost predicate HasPermalink(e: Engine, here: Engrams, permalink: string) {
    exists p :: p in here && e.permalink(p, here[p]) == Some(permalink)
  }

  /** An exported engram is written exactly when it reads, its path and permalink are new here, the store takes its text, and none written before it has its permalink. */
  lemma WrittenWhen(e: Engine, here: Engrams, there: Export, k: nat)
    requires k < |there| && Distinct(there)
    ensures var (path, text) := there[k];
            FateAt(e, here, there, k) == Written
            <==> && e.permalink(path, text).Some? && path !in here && !e.refuses(path, text)
                 && !HasPermalink(e, here, e.permalink(path, text).value)
                 && forall j: nat | j < k && FateAt(e, here, there, j) == Written :: e.permalink(there[j].0, there[j].1) != e.permalink(path, text)
  {
    hide Stored;
    var (path, text) := there[k];
    var before := Stored(e, here, there, k);
    if e.permalink(path, text).Some? && path !in here {
      HeldHere(e, here, path, text);
      NotYet(e, here, there, k);
      HeldHere(e, before, path, text);
      forall p
        ensures p in before && e.permalink(p, before[p]) == e.permalink(path, text)
           <==> || (p in here && e.permalink(p, here[p]) == e.permalink(path, text))
                || (p !in here && exists j: nat :: j < k && FateAt(e, here, there, j) == Written && there[j].0 == p
                                    && e.permalink(there[j].0, there[j].1) == e.permalink(path, text))
      {
        StoredAre(e, here, there, k, p);
        if p in here { StoredKeeps(e, here, there, k, p); }
      }
      forall j: nat | j < k && FateAt(e, here, there, j) == Written
        ensures there[j].0 !in here
      {
        WrittenIsNew(e, here, there, j);
      }
    }
  }

  lemma HeldHere(e: Engine, here: Engrams, path: string, text: string)
    requires path !in here && e.permalink(path, text).Some?
    ensures PermalinkHeld(e, here, path, text) <==> HasPermalink(e, here, e.permalink(path, text).value)
  {}

  lemma NotYet(e: Engine, here: Engrams, there: Export, k: nat)
    requires k < |there| && Distinct(there) && there[k].0 !in here
    ensures there[k].0 !in Stored(e, here, there, k)
  {
    hide FateAt;
    StoredAre(e, here, there, k, there[k].0);
  }
}
