/** Heading slugs: the assigner that remembers what a document has used, against the rule it stands for. */
module Anchors {
  import opened Options

  // ----- decimal numbers

  function Digit(d: nat): char
    requires d < 10
  {
    "0123456789"[d]
  }

  function Decimal(n: nat): (r: string)
    ensures |r| >= 1 && (|r| == 1 <==> n < 10)
  {
    if n < 10 then [Digit(n)] else Decimal(n / 10) + [Digit(n % 10)]
  }

  lemma DigitInjective(a: nat, b: nat)
    requires a < 10 && b < 10 && Digit(a) == Digit(b)
    ensures a == b
  {}

  lemma {:induction false} DecimalInjective(a: nat, b: nat)
    requires Decimal(a) == Decimal(b)
    ensures a == b
  {
    var s := Decimal(a);
    assert s[|s| - 1] == Digit(a % 10) == Digit(b % 10);
    DigitInjective(a % 10, b % 10);
    if a >= 10 {
      assert s[..|s| - 1] == Decimal(a / 10) == Decimal(b / 10);
      DecimalInjective(a / 10, b / 10);
    }
  }

  // ----- the rule

  /** The names tried for a base: itself, then numbered from 1 on. */
  function Name(base: string, n: nat): string {
    if n == 0 then base else base + "-" + Decimal(n)
  }

  lemma NameInjective(base: string, a: nat, b: nat)
    requires Name(base, a) == Name(base, b)
    ensures a == b
  {
    if a > 0 && b > 0 {
      var s, k := Name(base, a), |base| + 1;
      assert s[k..] == Decimal(a) && s[k..] == Decimal(b);
      DecimalInjective(a, b);
    }
  }

  /** The name the rule gives: the first one not taken. */
  ghost predicate IsFirstFree(taken: set<string>, base: string, m: nat) {
    Name(base, m) !in taken && forall k: nat | k < m :: Name(base, k) in taken
  }

  /** Only as many names can be taken as there are taken names. */
  lemma {:induction false} TakenNames(taken: set<string>, base: string, n: nat)
    requires forall k: nat | k < n :: Name(base, k) in taken
    ensures n <= |taken|
  {
    if n > 0 {
      forall k: nat | k < n - 1
        ensures Name(base, k) in taken - {Name(base, n - 1)}
      {
        if Name(base, k) == Name(base, n - 1) { NameInjective(base, k, n - 1); }
      }
      TakenNames(taken - {Name(base, n - 1)}, base, n - 1);
    }
  }

  function Elements(s: seq<string>): set<string> {
    set x | x in s
  }

  /** Each id is the first free name of its base among the ids before it. */
  ghost predicate Naive(bases: seq<string>, ids: seq<string>) {
    && |ids| == |bases|
    && forall i | 0 <= i < |ids| :: IsNaive(Elements(ids[..i]), bases[i], ids[i])
  }

  ghost predicate IsNaive(taken: set<string>, base: string, id: string) {
    exists m: nat :: IsFirstFree(taken, base, m) && id == Name(base, m)
  }

  /** The rule names every heading apart. */
  lemma NaiveDistinct(bases: seq<string>, ids: seq<string>)
    requires Naive(bases, ids)
    ensures forall i, j | 0 <= i < j < |ids| :: ids[i] != ids[j]
  {
    forall i, j | 0 <= i < j < |ids|
      ensures ids[i] != ids[j]
    {
      assert IsNaive(Elements(ids[..j]), bases[j], ids[j]);
      assert ids[..j][i] == ids[i];
      assert ids[i] in Elements(ids[..j]);
    }
  }

  /** The rule gives one answer, so a heading's id does not depend on the headings after it. */
  lemma {:induction false} NaiveUnique(bases: seq<string>, more: seq<string>, a: seq<string>, b: seq<string>)
    requires Naive(bases, a) && Naive(bases + more, b)
    ensures a == b[..|a|]
  {
    if bases != [] {
      var n := |bases| - 1;
      assert bases == bases[..n] + [bases[n]];
      assert bases + more == bases[..n] + ([bases[n]] + more);
      assert Naive(bases[..n], a[..n]) by {
        assert forall i | 0 <= i < n :: a[..n][..i] == a[..i];
      }
      NaiveUnique(bases[..n], [bases[n]] + more, a[..n], b);
      assert a[..n] == b[..n];
      assert IsNaive(Elements(a[..n]), bases[n], a[n]) && IsNaive(Elements(b[..n]), (bases + more)[n], b[n]);
      OneName(Elements(a[..n]), bases[n], a[n], b[n]);
      assert a == a[..n] + [a[n]];
    }
  }

  lemma OneName(taken: set<string>, base: string, a: string, b: string)
    requires IsNaive(taken, base, a) && IsNaive(taken, base, b)
    ensures a == b
  {
    var m: nat :| IsFirstFree(taken, base, m) && a == Name(base, m);
    var n: nat :| IsFirstFree(taken, base, n) && b == Name(base, n);
    assert m == n;
  }

  // ----- the assigner one document runs on

  /** The counting loop: from the count a base was left at, up to its first free name. */
  method CountOn(taken: set<string>, base: string, count: nat) returns (candidate: string, n: nat)
    requires if base in taken then forall k: nat | k <= count :: Name(base, k) in taken else count == 0
    ensures IsNaive(taken, base, candidate)
    ensures forall k: nat | k <= n :: Name(base, k) in taken + {candidate}
  {
    candidate, n := base, count;
    if base in taken { TakenNames(taken, base, count); }
    ghost var m: nat := 0;
    while candidate in taken
      invariant candidate == Name(base, m) && (m == 0 || m == n)
      invariant m == 0 ==> n == count
      invariant m > 0 ==> forall k: nat | k < n :: Name(base, k) in taken
      invariant n <= |taken|
      decreases |taken| - n
    {
      TakenNames(taken, base, n + 1);
      n := n + 1;
      candidate := base + "-" + Decimal(n);
      m := n;
    }
    assert IsFirstFree(taken, base, m);
  }

  class SlugAssigner {
    const slug: string -> string
    var taken: set<string>
    var counts: map<string, nat>
    ghost var bases: seq<string>
    ghost var ids: seq<string>

    /** The memory is what was handed out, and every name up to a base's count is taken. */
    ghost predicate Valid()
      reads this
    {
      && taken == Elements(ids)
      && Naive(bases, ids)
      && forall b, k: nat | b in counts && k <= counts[b] :: Name(b, k) in taken
    }

    constructor (slug: string -> string)
      ensures Valid() && this.slug == slug && bases == [] && ids == []
    {
      this.slug := slug;
      taken, counts := {}, map[];
      bases, ids := [], [];
    }

    /** The next heading's id: counting resumes at the base's count, and still lands on the first free name. */
    method Assign(text: string) returns (id: string)
      requires Valid()
      modifies this
      ensures Valid()
      ensures bases == old(bases) + [slug(text)] && ids == old(ids) + [id]
      ensures IsNaive(old(taken), slug(text), id)
    {
      var base := slug(text);
      assert base in counts ==> Name(base, 0) in taken;
      var candidate, n := CountOn(taken, base, if base in counts then counts[base] else 0);
      counts := counts[base := n];
      taken := taken + {candidate};
      id := candidate;
      bases, ids := bases + [base], ids + [id];
      NaiveOn(old(bases), old(ids), base, id);
    }
  }

  lemma NaiveOn(bases: seq<string>, ids: seq<string>, base: string, id: string)
    requires Naive(bases, ids) && IsNaive(Elements(ids), base, id)
    ensures Naive(bases + [base], ids + [id]) && Elements(ids + [id]) == Elements(ids) + {id}
  {
    var ids' := ids + [id];
    assert ids'[..|ids|] == ids;
    assert forall i | 0 <= i < |ids| :: ids'[..i] == ids[..i];
  }

  // ----- the digits read back

  /** The number a run of digits stands for. */
  function Value(digits: string): int {
    if digits == "" then 0 else 10 * Value(digits[..|digits| - 1]) + (digits[|digits| - 1] as int - '0' as int)
  }

  /** The digits of a number are digits, read back as it, and only zero starts with a zero. */
  lemma {:induction false} DecimalReads(n: nat)
    ensures Value(Decimal(n)) == n
    ensures forall c | c in Decimal(n) :: '0' <= c <= '9'
    ensures Decimal(n)[0] == '0' <==> n == 0
  {
    DigitIs(n % 10);
    if n < 10 {
      assert Decimal(n)[..0] == "";
    } else {
      DecimalReads(n / 10);
      var s := Decimal(n);
      assert s[..|s| - 1] == Decimal(n / 10);
    }
  }

  lemma DigitIs(d: nat)
    requires d < 10
    ensures Digit(d) as int == '0' as int + d
  {}
}
