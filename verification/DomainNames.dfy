/** The names a link can use for a domain, and the one table that says what each means. */
module DomainNames {
  import opened Options

  datatype Row = Row(name: string, canonical: Option<string>, aliases: seq<string>)

  // ----- the rule, said of the listing

  predicate IsLocal(rows: seq<Row>, s: string) {
    exists i | 0 <= i < |rows| :: rows[i].name == s
  }

  /** The two ways a row names itself beside its local name. */
  datatype Use = Canonical | Alias

  predicate Says(row: Row, use: Use, s: string) {
    match use
    case Canonical => row.canonical == Some(s) && row.name != s
    case Alias => s in row.aliases
  }

  /** The names of the rows that say `s`, in listing order, each row once. */
  function Sayers(rows: seq<Row>, use: Use, s: string): seq<string> {
    if rows == [] then []
    else (if Says(rows[0], use, s) then [rows[0].name] else []) + Sayers(rows[1..], use, s)
  }

  /** The domain a spelling means, `None` when it resolves nowhere. */
  function Meaning(rows: seq<Row>, s: string): Option<string> {
    if IsLocal(rows, s) then Some(s)
    else if |Sayers(rows, Canonical, s)| == 1 then Some(Sayers(rows, Canonical, s)[0])
    else if Sayers(rows, Canonical, s) == [] && |Sayers(rows, Alias, s)| == 1 then Some(Sayers(rows, Alias, s)[0])
    else None
  }

  lemma {:induction false} SayersAppend(rows: seq<Row>, more: seq<Row>, use: Use, s: string)
    ensures Sayers(rows + more, use, s) == Sayers(rows, use, s) + Sayers(more, use, s)
  {
    if rows == [] {
      assert rows + more == more;
    } else {
      assert (rows + more)[1..] == rows[1..] + more;
      SayersAppend(rows[1..], more, use, s);
    }
  }

  lemma NextRow(rows: seq<Row>, i: nat, use: Use)
    requires i < |rows|
    ensures forall s :: Sayers(rows[..i + 1], use, s)
                        == Sayers(rows[..i], use, s) + if Says(rows[i], use, s) then [rows[i].name] else []
  {
    hide Says;
    assert rows[..i + 1] == rows[..i] + [rows[i]];
    forall s
      ensures Sayers(rows[..i + 1], use, s) == Sayers(rows[..i], use, s) + if Says(rows[i], use, s) then [rows[i].name] else []
    {
      SayersAppend(rows[..i], [rows[i]], use, s);
    }
  }

  lemma NextLocal(rows: seq<Row>, i: nat)
    requires i < |rows|
    ensures forall s :: IsLocal(rows[..i + 1], s) <==> IsLocal(rows[..i], s) || s == rows[i].name
  {
    assert forall k | 0 <= k < i :: rows[..i + 1][k] == rows[..i][k];
    assert rows[..i + 1][i] == rows[i];
    forall s | IsLocal(rows[..i], s)
      ensures IsLocal(rows[..i + 1], s)
    {
      var k :| 0 <= k < i && rows[..i][k].name == s;
      assert rows[..i + 1][k].name == s;
    }
  }

  // ----- the table, built in three passes

  method LocalNames(rows: seq<Row>) returns (spellings: map<string, string>)
    ensures forall s :: s in spellings <==> IsLocal(rows, s)
    ensures forall s | s in spellings :: spellings[s] == s
  {
    spellings := map[];
    for i := 0 to |rows|
      invariant forall s :: s in spellings <==> IsLocal(rows[..i], s)
      invariant forall s | s in spellings :: spellings[s] == s
    {
      NextLocal(rows, i);
      spellings := spellings[rows[i].name := rows[i].name];
    }
    assert rows[..|rows|] == rows;
  }

  method CollectClaims(rows: seq<Row>) returns (claims: map<string, seq<string>>)
    ensures forall s :: s in claims <==> Sayers(rows, Canonical, s) != []
    ensures forall s | s in claims :: claims[s] == Sayers(rows, Canonical, s)
  {
    claims := map[];
    for i := 0 to |rows|
      invariant forall s :: s in claims <==> Sayers(rows[..i], Canonical, s) != []
      invariant forall s | s in claims :: claims[s] == Sayers(rows[..i], Canonical, s)
    {
      NextRow(rows, i, Canonical);
      var row := rows[i];
      if row.canonical.Some? && row.canonical.value != row.name {
        var canonical := row.canonical.value;
        claims := claims[canonical := (if canonical in claims then claims[canonical] else []) + [row.name]];
      }
    }
    assert rows[..|rows|] == rows;
  }

  method CollectAliases(rows: seq<Row>) returns (listed: map<string, seq<string>>)
    ensures forall s :: s in listed <==> Sayers(rows, Alias, s) != []
    ensures forall s | s in listed :: listed[s] == Sayers(rows, Alias, s)
  {
    listed := map[];
    for i := 0 to |rows|
      invariant forall s :: s in listed <==> Sayers(rows[..i], Alias, s) != []
      invariant forall s | s in listed :: listed[s] == Sayers(rows[..i], Alias, s)
    {
      NextRow(rows, i, Alias);
      listed := ListAliases(listed, rows[i]);
    }
    assert rows[..|rows|] == rows;
  }

  /** One row's aliases, each counted once; the order they come in does not matter. */
  method ListAliases(listed: map<string, seq<string>>, row: Row) returns (r: map<string, seq<string>>)
    ensures forall s :: s in r <==> s in listed || Says(row, Alias, s)
    ensures forall s | s in r :: r[s] == (if s in listed then listed[s] else []) + if Says(row, Alias, s) then [row.name] else []
  {
    r := listed;
    var todo := set a | a in row.aliases;
    while todo != {}
      invariant forall a | a in todo :: Says(row, Alias, a)
      invariant forall s :: s in r <==> s in listed || (Says(row, Alias, s) && s !in todo)
      invariant forall s | s in r ::
                  r[s] == (if s in listed then listed[s] else []) + if Says(row, Alias, s) && s !in todo then [row.name] else []
      decreases |todo|
    {
      var alias :| alias in todo;
      r := r[alias := (if alias in r then r[alias] else []) + [row.name]];
      todo := todo - {alias};
    }
  }

  /** The canonical names in any order: granted, or contested when two domains claim one that no domain is registered under. */
  method GrantClaims(locals: map<string, string>, claims: map<string, seq<string>>)
    returns (spellings: map<string, string>, contested: set<string>)
    requires forall s | s in claims :: claims[s] != []
    ensures forall s :: s in spellings <==> s in locals || (s in claims && |claims[s]| == 1)
    ensures forall s | s in spellings :: spellings[s] == if s in locals then locals[s] else claims[s][0]
    ensures forall s :: s in contested <==> s !in locals && s in claims && |claims[s]| > 1
  {
    spellings, contested := locals, {};
    var todo := claims.Keys;
    while todo != {}
      invariant todo <= claims.Keys
      invariant forall s :: s in spellings <==> s in locals || (s in claims && s !in todo && |claims[s]| == 1)
      invariant forall s | s in spellings :: spellings[s] == if s in locals then locals[s] else claims[s][0]
      invariant forall s :: s in contested <==> s !in locals && s in claims && s !in todo && |claims[s]| > 1
      decreases |todo|
    {
      var name :| name in todo;
      todo := todo - {name};
      if name in spellings { continue; }
      if |claims[name]| > 1 {
        contested := contested + {name};
      } else {
        spellings := spellings[name := claims[name][0]];
      }
    }
  }

  /** The aliases in any order, judged against the table before any of them is granted. */
  method GrantAliases(taken: map<string, string>, contested: set<string>, listed: map<string, seq<string>>)
    returns (spellings: map<string, string>)
    ensures forall s :: s in spellings <==> s in taken || (s in listed && |listed[s]| == 1 && s !in contested)
    ensures forall s | s in spellings :: spellings[s] == if s in taken then taken[s] else listed[s][0]
  {
    spellings := taken;
    var todo := listed.Keys;
    while todo != {}
      invariant todo <= listed.Keys
      invariant forall s :: s in spellings <==>
                  s in taken || (s in listed && s !in todo && |listed[s]| == 1 && s !in contested)
      invariant forall s | s in spellings :: spellings[s] == if s in taken then taken[s] else listed[s][0]
      decreases |todo|
    {
      var alias :| alias in todo;
      todo := todo - {alias};
      if |listed[alias]| == 1 && alias !in taken && alias !in contested {
        spellings := spellings[alias := listed[alias][0]];
      }
    }
  }

  /** The spelling table holds exactly what the rule says, whatever order the passes meet the names in. */
  method DomainSpellings(rows: seq<Row>) returns (spellings: map<string, string>)
    ensures forall s :: s in spellings <==> Meaning(rows, s).Some?
    ensures forall s | s in spellings :: Meaning(rows, s) == Some(spellings[s])
  {
    var locals := LocalNames(rows);
    var claims := CollectClaims(rows);
    var taken, contested := GrantClaims(locals, claims);
    var listed := CollectAliases(rows);
    spellings := GrantAliases(taken, contested, listed);
  }

  // ----- what the rule means for domains

  /** No two rows are registered under one name. */
  ghost predicate UniqueNames(rows: seq<Row>) {
    forall i, j | 0 <= i < j < |rows| :: rows[i].name != rows[j].name
  }

  /** Domain `d` says `s`. */
  ghost predicate SaidBy(rows: seq<Row>, use: Use, s: string, d: string) {
    exists row :: row in rows && row.name == d && Says(row, use, s)
  }

  lemma {:induction false} WhoSays(rows: seq<Row>, use: Use, s: string)
    requires UniqueNames(rows)
    ensures forall d :: d in Sayers(rows, use, s) <==> SaidBy(rows, use, s, d)
    ensures Distinct(Sayers(rows, use, s))
  {
    hide Says, Distinct;
    if rows == [] {
      DistinctNone();
    } else {
      var rest := rows[1..];
      OtherNames(rows);
      WhoSays(rest, use, s);
      assert !SaidBy(rest, use, s, rows[0].name);
      DistinctPrepend(rows[0].name, Sayers(rest, use, s));
      assert [] + Sayers(rest, use, s) == Sayers(rest, use, s);
      assert forall row :: row in rows <==> row == rows[0] || row in rest;
      assert forall d :: SaidBy(rows, use, s, d) <==> SaidBy(rest, use, s, d) || (d == rows[0].name && Says(rows[0], use, s));
    }
  }

  lemma OtherNames(rows: seq<Row>)
    requires UniqueNames(rows) && rows != []
    ensures UniqueNames(rows[1..])
    ensures forall row | row in rows[1..] :: row.name != rows[0].name
  {
    var rest := rows[1..];
    forall row | row in rest
      ensures row.name != rows[0].name
    {
      var i :| 0 <= i < |rest| && rest[i] == row;
      assert rows[i + 1] == row;
    }
  }

  ghost predicate Distinct(names: seq<string>) {
    forall i, j | 0 <= i < j < |names| :: names[i] != names[j]
  }

  lemma DistinctNone()
    ensures Distinct([])
  {}

  lemma DistinctPrepend(name: string, names: seq<string>)
    requires Distinct(names) && name !in names
    ensures Distinct([name] + names)
  {}

  lemma OnlyOne(names: seq<string>, d: string)
    requires Distinct(names)
    ensures (|names| == 1 && names[0] == d) <==> forall e :: e in names <==> e == d
  {
    if |names| == 1 { assert forall e :: e in names <==> e == names[0]; }
    if |names| > 0 { assert names[0] in names; }
    if |names| > 1 { assert names[1] in names && names[0] != names[1]; }
    var listed := d in names;
  }

  /**
   * With unique local names: a spelling means a domain exactly when it is
   * its local name, or no local name and that domain alone claims it, or
   * neither local nor claimed and that domain alone lists it as an alias.
   */
  lemma MeaningIs(rows: seq<Row>, s: string, d: string)
    requires UniqueNames(rows)
    ensures Meaning(rows, s) == Some(d)
        <==> || (IsLocal(rows, s) && s == d)
             || (!IsLocal(rows, s) && forall e :: SaidBy(rows, Canonical, s, e) <==> e == d)
             || (!IsLocal(rows, s) && (forall e :: !SaidBy(rows, Canonical, s, e))
                 && forall e :: SaidBy(rows, Alias, s, e) <==> e == d)
  {
    hide IsLocal, SaidBy, Distinct;
    WhoSays(rows, Canonical, s);
    WhoSays(rows, Alias, s);
    OnlyOne(Sayers(rows, Canonical, s), d);
    OnlyOne(Sayers(rows, Alias, s), d);
    var claimants := Sayers(rows, Canonical, s);
    assert claimants == [] <==> forall e :: e !in claimants by {
      if claimants != [] { assert claimants[0] in claimants; }
    }
  }

  /** A spelling never means anything but a registered domain. */
  lemma MeaningIsLocal(rows: seq<Row>, s: string)
    ensures Meaning(rows, s).Some? ==> IsLocal(rows, Meaning(rows, s).value)
  {
    NamesAreLocal(rows, Canonical, s);
    NamesAreLocal(rows, Alias, s);
  }

  lemma {:induction false} NamesAreLocal(rows: seq<Row>, use: Use, s: string)
    ensures forall d | d in Sayers(rows, use, s) :: IsLocal(rows, d)
  {
    hide Says;
    if rows != [] {
      NamesAreLocal(rows[1..], use, s);
      forall d | d == rows[0].name || IsLocal(rows[1..], d)
        ensures IsLocal(rows, d)
      {
        if d == rows[0].name {
          assert rows[0].name == d;
        } else {
          var i :| 0 <= i < |rows[1..]| && rows[1..][i].name == d;
          assert rows[i + 1].name == d;
        }
      }
    }
  }

  // ----- the order of the listing

  lemma {:induction false} SameNames(a: seq<Row>, b: seq<Row>, use: Use, s: string)
    requires multiset(a) == multiset(b)
    ensures multiset(Sayers(a, use, s)) == multiset(Sayers(b, use, s))
  {
    hide Says;
    if a == [] {
      assert |b| == |multiset(b)| == 0;
    } else {
      assert a[0] in multiset(b);
      var i :| 0 <= i < |b| && b[i] == a[0];
      SameRest(a, b, i);
      SameNames(a[1..], b[..i] + b[i + 1..], use, s);
      SayersWithout(b, i, use, s);
    }
  }

  lemma RestOf(rows: seq<Row>, i: nat)
    requires i < |rows|
    ensures multiset(rows[..i] + rows[i + 1..]) == multiset(rows) - multiset{rows[i]}
  {
    assert rows == rows[..i] + [rows[i]] + rows[i + 1..];
  }

  lemma HeadRest(rows: seq<Row>)
    requires rows != []
    ensures multiset(rows[1..]) == multiset(rows) - multiset{rows[0]}
  {
    assert rows == [rows[0]] + rows[1..];
  }

  lemma SameRest(a: seq<Row>, b: seq<Row>, i: nat)
    requires a != [] && i < |b| && b[i] == a[0] && multiset(a) == multiset(b)
    ensures multiset(a[1..]) == multiset(b[..i] + b[i + 1..])
  {
    HeadRest(a);
    RestOf(b, i);
  }

  lemma SayersWithout(b: seq<Row>, i: nat, use: Use, s: string)
    requires i < |b|
    ensures multiset(Sayers(b, use, s))
         == multiset(if Says(b[i], use, s) then [b[i].name] else []) + multiset(Sayers(b[..i] + b[i + 1..], use, s))
  {
    hide Says;
    var left, right := b[..i], b[i + 1..];
    assert b == left + ([b[i]] + right);
    SayersAppend(left, right, use, s);
    SayersAppend(left, [b[i]] + right, use, s);
    SayersAppend([b[i]], right, use, s);
  }

  /** Listed in any order, the domains give the same table. */
  lemma MeaningIgnoresOrder(a: seq<Row>, b: seq<Row>, s: string)
    requires multiset(a) == multiset(b)
    ensures Meaning(a, s) == Meaning(b, s)
  {
    hide Says, IsLocal;
    SameNames(a, b, Canonical, s);
    SameNames(a, b, Alias, s);
    SameLocals(a, b, s);
    SameOne(Sayers(a, Canonical, s), Sayers(b, Canonical, s));
    SameOne(Sayers(a, Alias, s), Sayers(b, Alias, s));
  }

  lemma SameLocals(a: seq<Row>, b: seq<Row>, s: string)
    requires multiset(a) == multiset(b)
    ensures IsLocal(a, s) <==> IsLocal(b, s)
  {
    if IsLocal(a, s) {
      var i :| 0 <= i < |a| && a[i].name == s;
      assert a[i] in multiset(b);
    }
    if IsLocal(b, s) {
      var i :| 0 <= i < |b| && b[i].name == s;
      assert b[i] in multiset(a);
    }
  }

  lemma SameOne(a: seq<string>, b: seq<string>)
    requires multiset(a) == multiset(b)
    ensures |a| == |b| && (|a| == 1 ==> a == b)
  {
    assert |a| == |multiset(a)| && |b| == |multiset(b)|;
    if |a| == 1 { assert a[0] in multiset(b); }
  }
}
