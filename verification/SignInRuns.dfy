/** What every sign-in of a run saw and left: each one is a connect on the worlds its steps found. */
module SignInRuns {
  import opened Options
  import opened Credentials
  import opened CredentialRuns

  // ----- what runs keep

  /** The token of a sign-in that succeeded belongs to a former account exactly while that account's removal has not swept the name clear. */
  lemma FormerToken(s: State, moves: seq<Move>, n: nat, i: nat)
    requires Fresh(s) && n <= |moves| && SignInAt(At(s, moves, n), i, Succeeded)
    requires var t := At(s, moves, n); t.world.token == Some(t.procs[i].a.who.mine) && t.procs[i].a.began.Some?
    ensures var t := At(s, moves, n);
            t.world.born != t.procs[i].a.began <==> Unswept(t, t.procs[i].a.began.value)
  {
    hide At, Fresh;
    RunsAreSafe(s, moves, n);
    var t := At(s, moves, n);
    assert IsSignIn(t, i) && Mine(t, i) == t.procs[i].a.who.mine;
  }

  /** The token of a refused sign-in is not stored, however the others run; only one that could not be taken back can be. */
  lemma RefusedIsGone(s: State, moves: seq<Move>, n: nat, i: nat)
    requires Fresh(s) && n <= |moves| && SignInAt(At(s, moves, n), i, Refused)
    ensures At(s, moves, n).world.token != Some(At(s, moves, n).procs[i].a.who.mine)
  {
    hide At, Fresh;
    RunsAreSafe(s, moves, n);
    var t := At(s, moves, n);
    assert IsSignIn(t, i) && Mine(t, i) == t.procs[i].a.who.mine;
  }

  /** A link is there only with the account its sign-in began for: never with a later one under the name. */
  lemma LinkGoesWithItsAccount(s: State, moves: seq<Move>, n: nat, i: nat)
    requires Fresh(s) && n <= |moves| && IsSignIn(At(s, moves, n), i)
    requires var t := At(s, moves, n); t.world.link.Some? && t.world.link.value.maker == t.procs[i].a.who.mine
    ensures var t := At(s, moves, n); t.procs[i].a.began.Some? && t.world.born == t.procs[i].a.began
  {
    hide At, Fresh;
    RunsAreSafe(s, moves, n);
    assert Mine(At(s, moves, n), i) == At(s, moves, n).procs[i].a.who.mine;
  }

  // ----- the steps of one sign-in

  lemma AtNext(s: State, moves: seq<Move>, n: nat)
    requires n < |moves|
    ensures At(s, moves, n + 1) == Step(At(s, moves, n), moves[n])
  {}

  /** A process changes by its own steps only. */
  lemma OwnStep(s: State, m: Move, i: nat)
    requires i < |s.procs|
    ensures i < |Step(s, m).procs|
    ensures Step(s, m).procs[i] == if m.Go? && m.i == i then ProcStep(s.procs[i], s.world, s.made, m.succeeds).0 else s.procs[i]
    ensures m.Go? && m.i == i ==> Step(s, m).world == ProcStep(s.procs[i], s.world, s.made, m.succeeds).1
  {
    hide ProcStep;
  }

  lemma Started(s: State, m: Move, i: nat)
    requires i >= |s.procs| && i < |Step(s, m).procs|
    ensures i == |s.procs| && m.Start?
    ensures IsSignIn(Step(s, m), i) ==>
              m.job.SignsIn? && Step(s, m).procs[i].a == Begin(m.job.who, s.world, m.succeeds) && Step(s, m).world == s.world
  {
    hide ProcStep;
  }

  /** The step by which a sign-in came to stand as it does. */
  lemma {:induction false} EnteredBy(s: State, moves: seq<Move>, n: nat, i: nat) returns (m: nat)
    requires s.procs == [] && n <= |moves| && IsSignIn(At(s, moves, n), i)
    requires var phase := At(s, moves, n).procs[i].a.phase; !phase.Asking? && !phase.Refused?
    ensures m < n && moves[m].Go? && moves[m].i == i && IsSignIn(At(s, moves, m), i)
    ensures var a := At(s, moves, m).procs[i].a;
            && !Over(a) && SignInStep(a, At(s, moves, m).world, moves[m].succeeds) == (At(s, moves, n).procs[i].a, At(s, moves, m + 1).world)
    decreases n
  {
    hide At, Step, SignInStep, Begin;
    if n == 0 { NoneYet(s, moves); }
    var before, move := At(s, moves, n - 1), moves[n - 1];
    AtNext(s, moves, n - 1);
    if i >= |before.procs| {
      Started(before, move, i);
      BeginPhase(move.job.who, before.world, move.succeeds);
    }
    OwnStep(before, move, i);
    if move.Go? && move.i == i && !Over(before.procs[i].a) {
      m := n - 1;
    } else {
      if move.Go? && move.i == i { OverStays(before.procs[i].a, before.world, move.succeeds); }
      m := EnteredBy(s, moves, n - 1, i);
    }
  }

  lemma NoneYet(s: State, moves: seq<Move>)
    ensures At(s, moves, 0) == s
  {}

  lemma BeginPhase(who: Who, w: World, succeeds: bool)
    ensures Begin(who, w, succeeds).phase.Asking? || Begin(who, w, succeeds).phase.Refused?
    ensures Begin(who, w, succeeds).who == who
    ensures Begin(who, w, succeeds).phase.Asking? && who.asks ==> Begin(who, w, succeeds).began == w.born
  {}

  lemma OverStays(a: SignIn, w: World, succeeds: bool)
    requires Over(a)
    ensures SignInStep(a, w, succeeds) == (a, w)
  {}

  /** The move a sign-in started with, and what it began for. */
  lemma {:induction false} StartedBy(s: State, moves: seq<Move>, n: nat, i: nat) returns (k: nat)
    requires s.procs == [] && n <= |moves| && IsSignIn(At(s, moves, n), i)
    ensures k < n && moves[k].Start? && moves[k].job.SignsIn? && |At(s, moves, k).procs| == i
    ensures var a, b := At(s, moves, n).procs[i].a, Begin(moves[k].job.who, At(s, moves, k).world, moves[k].succeeds);
            a.who == b.who && a.began == b.began && (b.phase.Refused? ==> a == b)
    decreases n
  {
    hide At, Step, SignInStep, Begin;
    if n == 0 { NoneYet(s, moves); }
    var before, move := At(s, moves, n - 1), moves[n - 1];
    AtNext(s, moves, n - 1);
    if i >= |before.procs| {
      Started(before, move, i);
      k := n - 1;
    } else {
      OwnStep(before, move, i);
      if move.Go? && move.i == i {
        SameWho(before.procs[i].a, before.world, move.succeeds);
        if Over(before.procs[i].a) { OverStays(before.procs[i].a, before.world, move.succeeds); }
      }
      k := StartedBy(s, moves, n - 1, i);
    }
  }

  lemma SameWho(a: SignIn, w: World, succeeds: bool)
    ensures var b := SignInStep(a, w, succeeds).0; b.who == a.who && b.began == a.began
  {}

  /** What comes before each phase of the way to success. */
  lemma CameFrom(a: SignIn, w: World, succeeds: bool)
    requires !Over(a)
    ensures var (b, w') := SignInStep(a, w, succeeds);
            && (b.phase.Succeeded? ==> a.phase.Rechecking? && (a.who.asks ==> succeeds && w.born == a.began))
            && (b.phase.Rechecking? ==> a.phase.Saving? && w'.token == Some(a.who.mine))
            && (b.phase.Saving? ==>
                  || (a.phase.Asking? && !a.who.links && (a.who.asks ==> succeeds && w.born == a.began))
                  || (a.phase.Linking? && a.began.Some? && w.born == a.began && w'.link == Some(Link(a.who.mine, true))))
            && (b.phase.Linking? ==> a.phase.Asking? && a.who.links && (a.who.asks ==> succeeds && w.born == a.began))
  {}

  /** In every run, a sign-in that succeeded found the account it began for when it asked before its save and when it asked again after, and linked no other: `k` starts it, `c` asks, `v` saves, `r` asks again. */
  lemma {:induction false} SuccessSawItsAccount(s: State, moves: seq<Move>, n: nat, i: nat) returns (k: nat, c: nat, v: nat, r: nat)
    requires s.procs == [] && n <= |moves| && SignInAt(At(s, moves, n), i, Succeeded)
    ensures k < c < v < r < n && moves[k].Start? && moves[k].job == SignsIn(At(s, moves, n).procs[i].a.who) && |At(s, moves, k).procs| == i
    ensures forall m | m in {c, v, r} :: moves[m].Go? && moves[m].i == i
    ensures SignInAt(At(s, moves, c), i, Asking) && SignInAt(At(s, moves, v), i, Saving) && SignInAt(At(s, moves, r), i, Rechecking)
    ensures var a := At(s, moves, n).procs[i].a;
            && (a.who.asks ==> forall m | m in {k, c, r} :: At(s, moves, m).world.born == a.began)
            && At(s, moves, v + 1).world.token == Some(a.who.mine)
            && (a.who.links ==>
                  exists x :: c < x < v && a.began.Some? && At(s, moves, x).world.born == a.began
                    && At(s, moves, x + 1).world.link == Some(Link(a.who.mine, true)))
  {
    hide At, Step, SignInStep, Begin;
    r := EnteredBy(s, moves, n, i);
    CameFrom(At(s, moves, r).procs[i].a, At(s, moves, r).world, moves[r].succeeds);
    SameWho(At(s, moves, r).procs[i].a, At(s, moves, r).world, moves[r].succeeds);
    v := EnteredBy(s, moves, r, i);
    CameFrom(At(s, moves, v).procs[i].a, At(s, moves, v).world, moves[v].succeeds);
    SameWho(At(s, moves, v).procs[i].a, At(s, moves, v).world, moves[v].succeeds);
    var x := EnteredBy(s, moves, v, i);
    CameFrom(At(s, moves, x).procs[i].a, At(s, moves, x).world, moves[x].succeeds);
    SameWho(At(s, moves, x).procs[i].a, At(s, moves, x).world, moves[x].succeeds);
    c := x;
    if At(s, moves, x).procs[i].a.phase.Linking? {
      c := EnteredBy(s, moves, x, i);
      CameFrom(At(s, moves, c).procs[i].a, At(s, moves, c).world, moves[c].succeeds);
      SameWho(At(s, moves, c).procs[i].a, At(s, moves, c).world, moves[c].succeeds);
    }
    k := StartedBy(s, moves, c, i);
    BeginPhase(moves[k].job.who, At(s, moves, k).world, moves[k].succeeds);
  }

  /** Refused, or on the way there. */
  predicate Lost(phase: Phase) {
    phase.TakingBack? || phase.Deleting? || phase.Marking? || phase.Refused? || phase.LeftBehind?
  }

  /** A sign-in that asks and gets no answer, or another account, or none, is never successful afterwards. */
  lemma {:induction false} ChangedIsRefused(s: State, moves: seq<Move>, m: nat, n: nat, i: nat)
    requires m < n <= |moves| && moves[m].Go? && moves[m].i == i && IsSignIn(At(s, moves, m), i)
    requires var t := At(s, moves, m); var a := t.procs[i].a;
             (a.phase.Asking? || a.phase.Rechecking?) && a.who.asks && (!moves[m].succeeds || t.world.born != a.began)
    ensures IsSignIn(At(s, moves, n), i) && Lost(At(s, moves, n).procs[i].a.phase)
    decreases n
  {
    hide At, Step, SignInStep, Lost;
    AtNext(s, moves, n - 1);
    OwnStepAt(s, moves, n - 1, i);
    if n == m + 1 {
      AskedInVain(At(s, moves, m).procs[i].a, At(s, moves, m).world, moves[m].succeeds);
    } else {
      ChangedIsRefused(s, moves, m, n - 1, i);
      if moves[n - 1].Go? { LostStays(At(s, moves, n - 1).procs[i].a, At(s, moves, n - 1).world, moves[n - 1].succeeds); }
    }
  }

  lemma OwnStepAt(s: State, moves: seq<Move>, n: nat, i: nat)
    requires n < |moves|
    ensures i < |At(s, moves, n).procs| ==>
              var t, u := At(s, moves, n), At(s, moves, n + 1);
              i < |u.procs| && u.procs[i] == if moves[n].Go? && moves[n].i == i then ProcStep(t.procs[i], t.world, t.made, moves[n].succeeds).0 else t.procs[i]
  {
    hide Step, ProcStep;
    AtNext(s, moves, n);
    if i < |At(s, moves, n).procs| { OwnStep(At(s, moves, n), moves[n], i); }
  }

  lemma AskedInVain(a: SignIn, w: World, succeeds: bool)
    requires (a.phase.Asking? || a.phase.Rechecking?) && a.who.asks && (!succeeds || w.born != a.began)
    ensures Lost(SignInStep(a, w, succeeds).0.phase)
  {}

  lemma LostStays(a: SignIn, w: World, succeeds: bool)
    requires Lost(a.phase)
    ensures Lost(SignInStep(a, w, succeeds).0.phase)
  {}

  // ----- taking a token back

  lemma {:induction false} StillDeleting(s: State, moves: seq<Move>, l: nat, d: nat, i: nat)
    requires l < d <= |moves| && SignInAt(At(s, moves, l + 1), i, Deleting)
    requires forall x | l < x < d :: !(moves[x].Go? && moves[x].i == i)
    ensures SignInAt(At(s, moves, d), i, Deleting) && At(s, moves, d).procs[i] == At(s, moves, l + 1).procs[i]
    decreases d
  {
    hide At;
    if d > l + 1 {
      StillDeleting(s, moves, l, d - 1, i);
      OwnStepAt(s, moves, d - 1, i);
    }
  }

  /** Only its own save puts a sign-in's token there. */
  lemma OnlyItsSave(s: State, m: Move, i: nat)
    requires Granted(s) && IsSignIn(s, i) && !(m.Go? && m.i == i)
    ensures Step(s, m).world.token == Some(Mine(s, i)) ==> s.world.token == Some(Mine(s, i))
  {
    if m.Go? && m.i < |s.procs| {
      ProcEffect(s.procs[m.i], s.world, s.made, m.succeeds);
      hide ProcStep;
      assert IsSignIn(s, m.i) == s.procs[m.i].Connecting?;
      assert IsSignIn(s, m.i) ==> Mine(s, m.i) == s.procs[m.i].a.who.mine;
    }
  }

  /** A take-back read its own token at `l` and deletes at `d`: what it deletes is its own exactly when no move in between changed the stored token. */
  lemma {:induction false} TakeBackIsLate(s: State, moves: seq<Move>, l: nat, d: nat, i: nat)
    requires Fresh(s) && l < d <= |moves| && SignInAt(At(s, moves, l + 1), i, Deleting)
    requires At(s, moves, l + 1).world.token == Some(At(s, moves, l + 1).procs[i].a.who.mine)
    requires forall x | l < x < d :: !(moves[x].Go? && moves[x].i == i)
    ensures At(s, moves, d).world.token == Some(At(s, moves, l + 1).procs[i].a.who.mine)
       <==> forall x | l < x < d :: At(s, moves, x + 1).world.token == At(s, moves, x).world.token
    decreases d
  {
    hide At, Step, Fresh;
    if d > l + 1 {
      TakeBackIsLate(s, moves, l, d - 1, i);
      StillDeleting(s, moves, l, d - 1, i);
      RunsAreSafe(s, moves, d - 1);
      AtNext(s, moves, d - 1);
      OnlyItsSave(At(s, moves, d - 1), moves[d - 1], i);
      assert Mine(At(s, moves, d - 1), i) == At(s, moves, l + 1).procs[i].a.who.mine;
      if At(s, moves, d).world.token == Some(At(s, moves, l + 1).procs[i].a.who.mine) {
        assert At(s, moves, d).world.token == At(s, moves, d - 1).world.token;
      }
    }
  }

  // ----- every sign-in of a run is a connect

  /** The steps of a sign-in before move `n`: the worlds they found, their luck, and the world the last one left. */
  datatype Steps = Steps(found: seq<World>, lucks: seq<bool>, left: World)

  function StepsOf(s: State, moves: seq<Move>, k: nat, n: nat, i: nat): (r: Steps)
    requires k < n <= |moves|
    ensures |r.found| == |r.lucks|
    decreases n
  {
    if n == k + 1 then Steps([], [], At(s, moves, k).world)
    else
      var before, m := StepsOf(s, moves, k, n - 1, i), moves[n - 1];
      var t := At(s, moves, n - 1);
      if m.Go? && m.i == i && IsSignIn(t, i) && !Over(t.procs[i].a) then
        Steps(before.found + [t.world], before.lucks + [m.succeeds], At(s, moves, n).world)
      else before
  }

  lemma {:induction false} PlayMore(a: SignIn, w: World, found: seq<World>, lucks: seq<bool>, x: World, luck: bool)
    requires |found| == |lucks|
    ensures var (b, left) := Play(a, w, found, lucks);
            Play(a, w, found + [x], lucks + [luck]) == if Over(b) then (b, left) else SignInStep(b, x, luck)
    decreases |found|
  {
    hide SignInStep, Over;
    if found == [] || Over(a) {
      assert ([x])[1..] == [] && ([luck])[1..] == [];
      if found == [] { assert [] + [x] == [x] && [] + [luck] == [luck]; }
    } else {
      var (a', w') := SignInStep(a, found[0], lucks[0]);
      assert (found + [x])[1..] == found[1..] + [x] && (lucks + [luck])[1..] == lucks[1..] + [luck];
      PlayMore(a', w', found[1..], lucks[1..], x, luck);
    }
  }

  /** How far a sign-in is; every step takes it further. */
  function Rank(phase: Phase): (r: nat)
    ensures r <= STEPS
  {
    match phase
    case Asking => 0
    case Linking => 1
    case Saving => 2
    case Marking => 3
    case Rechecking => 3
    case TakingBack => 4
    case Deleting => 5
    case _ => STEPS
  }

  lemma StepsAhead(a: SignIn, w: World, succeeds: bool)
    requires !Over(a)
    ensures Rank(SignInStep(a, w, succeeds).0.phase) > Rank(a.phase)
  {}

  /** A sign-in of a run stands where playing its steps leads, and left the world they leave. */
  lemma {:induction false} StepsArePlayed(s: State, moves: seq<Move>, k: nat, n: nat, i: nat)
    requires k < n <= |moves| && moves[k].Start? && moves[k].job.SignsIn?
    requires i == |At(s, moves, k).procs| && moves[k].job.who.mine !in At(s, moves, k).granted
    ensures IsSignIn(At(s, moves, n), i)
    ensures var steps := StepsOf(s, moves, k, n, i); var w := At(s, moves, k).world;
            && Play(Begin(moves[k].job.who, w, moves[k].succeeds), w, steps.found, steps.lucks) == (At(s, moves, n).procs[i].a, steps.left)
            && |steps.found| <= Rank(At(s, moves, n).procs[i].a.phase)
    decreases n
  {
    hide At, Step, SignInStep, Begin, Play;
    var w := At(s, moves, k).world;
    var a := Begin(moves[k].job.who, w, moves[k].succeeds);
    if n == k + 1 {
      AtNext(s, moves, k);
      Begun(At(s, moves, k), moves[k].job.who, moves[k].succeeds);
      PlayNone(a, w);
    } else {
      StepsArePlayed(s, moves, k, n - 1, i);
      var before, t, m := StepsOf(s, moves, k, n - 1, i), At(s, moves, n - 1), moves[n - 1];
      AtNext(s, moves, n - 1);
      OwnStep(t, m, i);
      if m.Go? && m.i == i {
        if Over(t.procs[i].a) {
          OverStays(t.procs[i].a, t.world, m.succeeds);
        } else {
          PlayMore(a, w, before.found, before.lucks, t.world, m.succeeds);
          StepsAhead(t.procs[i].a, t.world, m.succeeds);
        }
      }
    }
  }

  lemma Begun(s: State, who: Who, succeeds: bool)
    requires who.mine !in s.granted
    ensures Step(s, Start(SignsIn(who), succeeds)).procs == s.procs + [Connecting(Begin(who, s.world, succeeds))]
  {}

  lemma PlayNone(a: SignIn, w: World)
    ensures Play(a, w, [], []) == (a, w)
  {}

  lemma {:induction false} PlayPadded(a: SignIn, w: World, found: seq<World>, lucks: seq<bool>, more: seq<World>, luck: seq<bool>)
    requires |found| == |lucks| && |more| == |luck| && Over(Play(a, w, found, lucks).0)
    ensures Play(a, w, found + more, lucks + luck) == Play(a, w, found, lucks)
    decreases |found|
  {
    hide SignInStep, Over;
    if found == [] {
      assert [] + more == more && [] + luck == luck;
    } else if !Over(a) {
      var (a', w') := SignInStep(a, found[0], lucks[0]);
      assert (found + more)[1..] == found[1..] + more && (lucks + luck)[1..] == lucks[1..] + luck;
      PlayPadded(a', w', found[1..], lucks[1..], more, luck);
    }
  }

  /** Every sign-in of a run that is over did what `Connect` does on the worlds its steps found, whatever the steps it did not take would find, and left what that leaves. */
  lemma SignInsAreConnects(s: State, moves: seq<Move>, k: nat, n: nat, i: nat, more: seq<World>, luck: seq<bool>)
    requires k < n <= |moves| && moves[k].Start? && moves[k].job.SignsIn?
    requires i == |At(s, moves, k).procs| && moves[k].job.who.mine !in At(s, moves, k).granted
    requires IsSignIn(At(s, moves, n), i) ==> Over(At(s, moves, n).procs[i].a)
    requires |StepsOf(s, moves, k, n, i).found| + |more| == STEPS && |more| == |luck|
    ensures IsSignIn(At(s, moves, n), i)
    ensures var who, steps := moves[k].job.who, StepsOf(s, moves, k, n, i);
            var end := Connect(At(s, moves, k).world, who, LuckOf(who, moves[k].succeeds, steps.lucks + luck), GapsOf(who, steps.found + more));
            end.world == steps.left && (end.ok <==> At(s, moves, n).procs[i].a.phase.Succeeded?)
  {
    hide At, Step, Play, Begin, Connect, StepsOf, GapsOf, LuckOf;
    StepsArePlayed(s, moves, k, n, i);
    var who, w, begin := moves[k].job.who, At(s, moves, k).world, moves[k].succeeds;
    var steps := StepsOf(s, moves, k, n, i);
    PlayPadded(Begin(who, w, begin), w, steps.found, steps.lucks, more, luck);
    PlayIsConnect(w, who, begin, steps.found + more, steps.lucks + luck);
  }

  /** A sign-in takes at most six steps. */
  lemma SixSteps(s: State, moves: seq<Move>, k: nat, n: nat, i: nat)
    requires k < n <= |moves| && moves[k].Start? && moves[k].job.SignsIn?
    requires i == |At(s, moves, k).procs| && moves[k].job.who.mine !in At(s, moves, k).granted
    ensures |StepsOf(s, moves, k, n, i).found| <= STEPS
  {
    hide At, StepsOf, Play;
    StepsArePlayed(s, moves, k, n, i);
  }

  // ----- a sweep that comes late

  const ACCOUNT_WITH_TOKEN := State(World(Some(0), None, Some("old"), None, false), 1, [], {"old"})

  /** The account goes, its sweep looks, another account is made and signs in, and only then the sweep deletes. */
  const LATE_SWEEP := [
    Start(Removes, true), Go(0, true),
    Start(Creates, true), Go(1, true), Go(1, true), Go(1, true), Go(1, true),
    Start(SignsIn(Who(true, false, "new")), true), Go(2, true), Go(2, true), Go(2, true),
    Go(0, true)]

  function After(n: nat): State
    requires n <= |LATE_SWEEP|
  {
    At(ACCOUNT_WITH_TOKEN, LATE_SWEEP, n)
  }

  lemma NextAfter(n: nat)
    requires n < |LATE_SWEEP|
    ensures After(0) == ACCOUNT_WITH_TOKEN && After(n + 1) == Step(After(n), LATE_SWEEP[n])
  {
    hide Step;
  }

  lemma OldIsCleared()
    ensures After(7) == State(World(Some(1), None, None, None, false), 2, [Removing(0, Wiping(0)), Creating(Clear, Some(1))], {"old"})
  {
    hide After;
    NextAfter(0);
    assert After(1) == ACCOUNT_WITH_TOKEN.(world := ACCOUNT_WITH_TOKEN.world.(born := None), procs := [Removing(0, Looking(0))]);
    NextAfter(1);
    assert After(2).procs == [Removing(0, Wiping(0))];
    NextAfter(2);
    assert After(3).procs == [Removing(0, Wiping(0)), Creating(Looking(0), None)];
    NextAfter(3);
    assert After(4).procs == [Removing(0, Wiping(0)), Creating(Wiping(0), None)];
    NextAfter(4);
    assert After(5).procs == [Removing(0, Wiping(0)), Creating(Looking(1), None)];
    NextAfter(5);
    assert After(6).procs == [Removing(0, Wiping(0)), Creating(Clear, None)];
    NextAfter(6);
  }

  /** The sweep after a removal can take the token of the account made since: its sign-in succeeded, and its token is gone. */
  lemma LateSweepTakesTheNewToken()
    ensures Fresh(ACCOUNT_WITH_TOKEN)
    ensures After(11).world.token == Some("new") && SignInAt(After(11), 2, Succeeded) && After(11).procs[2].a.began == After(11).world.born == Some(1)
    ensures After(12).world.token == None && SignInAt(After(12), 2, Succeeded) && After(12).world.born == Some(1)
  {
    hide After;
    OldIsCleared();
    var who := Who(true, false, "new");
    NextAfter(7);
    assert After(8).procs == After(7).procs + [Connecting(SignIn(who, Some(1), Asking))];
    NextAfter(8);
    assert After(9).procs == After(7).procs + [Connecting(SignIn(who, Some(1), Saving))];
    NextAfter(9);
    assert After(10).procs == After(7).procs + [Connecting(SignIn(who, Some(1), Rechecking))];
    NextAfter(10);
    assert After(11).procs == After(7).procs + [Connecting(SignIn(who, Some(1), Succeeded))];
    NextAfter(11);
  }
}
