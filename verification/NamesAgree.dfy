/** The browser's table of domain spellings and the merge's check of a name follow one rule. */
module NamesAgree {
  import opened Options
  import opened DesktopState
  import D = DomainNames

  /** The listing holds each known domain once, with the name its content carries and its former names. */
  ghost predicate ListsAll(w: World, known: map<string, Entry>, rows: seq<D.Row>) {
    && (forall i, j | 0 <= i < j < |rows| :: rows[i].name != rows[j].name)
    && (forall i | 0 <= i < |rows| :: RowOf(w, known, rows[i]))
    && forall d | d in known :: exists i :: 0 <= i < |rows| && rows[i].name == d
  }

  predicate RowOf(w: World, known: map<string, Entry>, row: D.Row) {
    row.name in known && row.canonical == Some(Canonical(w, row.name, known[row.name])) && row.aliases == known[row.name].aliases
  }

  /** The names of rows that say a spelling, as a set; every row is counted once. */
  lemma {:induction false} SayersAre(rows: seq<D.Row>, use: D.Use, s: string, names: set<string>)
    requires forall i, j | 0 <= i < j < |rows| :: rows[i].name != rows[j].name
    requires forall d :: d in names <==> exists i :: 0 <= i < |rows| && rows[i].name == d && D.Says(rows[i], use, s)
    ensures |D.Sayers(rows, use, s)| == |names|
    decreases |rows|
  {
    hide D.Says;
    if rows == [] {
      assert names == {};
    } else {
      var own := if D.Says(rows[0], use, s) then {rows[0].name} else {};
      var rest := names - own;
      forall d
        ensures d in rest <==> exists i :: 0 <= i < |rows[1..]| && rows[1..][i].name == d && D.Says(rows[1..][i], use, s)
      {
        if d in rest {
          var i :| 0 <= i < |rows| && rows[i].name == d && D.Says(rows[i], use, s);
          assert i > 0 && rows[1..][i - 1] == rows[i];
        }
        if i :| 0 <= i < |rows[1..]| && rows[1..][i].name == d && D.Says(rows[1..][i], use, s) {
          assert rows[i + 1] == rows[1..][i];
        }
      }
      SayersAre(rows[1..], use, s, rest);
      assert own <= names by { if own != {} { assert rows[0].name in names; } }
      assert names == rest + own;
    }
  }

  lemma SaysWhat(w: World, known: map<string, Entry>, rows: seq<D.Row>, s: string)
    requires ListsAll(w, known, rows)
    ensures s in known <==> D.IsLocal(rows, s)
    ensures forall d :: d in Claimants(w, known, s) <==> exists i :: 0 <= i < |rows| && rows[i].name == d && D.Says(rows[i], D.Canonical, s)
    ensures s !in known && Claimants(w, known, s) == {} ==>
              forall d :: d in Listers(w, known, s) <==> exists i :: 0 <= i < |rows| && rows[i].name == d && D.Says(rows[i], D.Alias, s)
  {
    hide Canonical;
    forall d | d in known
      ensures exists i :: 0 <= i < |rows| && rows[i].name == d && RowOf(w, known, rows[i])
    {
      var i :| 0 <= i < |rows| && rows[i].name == d;
      assert RowOf(w, known, rows[i]);
    }
    if s !in known && Claimants(w, known, s) == {} {
      forall d | d in known
        ensures s != d && s != Canonical(w, d, known[d])
      {
        assert d !in Claimants(w, known, s);
      }
    }
  }

  /** A spelling means a domain to the merge exactly when it does to the browser, for any listing of the same domains. */
  lemma ResolvesIsMeaning(w: World, known: map<string, Entry>, rows: seq<D.Row>, s: string)
    requires ListsAll(w, known, rows)
    ensures Resolves(w, known, s) <==> D.Meaning(rows, s).Some?
  {
    hide D.Sayers, D.Says, D.IsLocal, Claimants, Listers;
    SaysWhat(w, known, rows, s);
    SayersAre(rows, D.Canonical, s, Claimants(w, known, s));
    if s !in known && Claimants(w, known, s) == {} { SayersAre(rows, D.Alias, s, Listers(w, known, s)); }
  }
}
