/** Any number of sign-ins and disconnects of one name, step by step, while its account is removed and made again. */
module CredentialRuns {
  import opened Options
  import opened Credentials

  /** Clearing a name of tokens: look, delete what is there, twice at most, and look again. */
  datatype Sweep = Looking(turns: nat) | Wiping(turns: nat) | Clear | Failed

  function SweepStep(sweep: Sweep, w: World, succeeds: bool): (Sweep, World) {
    match sweep
    case Looking(n) =>
      (if !succeeds then Failed else if w.token.None? then Clear else if n >= 2 then Failed else Wiping(n), w)
    case Wiping(n) => if succeeds then (Looking(n + 1), w.(token := None)) else (Failed, w)
    case _ => (sweep, w)
  }

  /** A removal sweeps after its row is gone, a creation before its row is made. */
  datatype Proc =
    | Connecting(a: SignIn)
    | Disconnecting(t: Turn)
    | Removing(account: nat, sweep: Sweep)
    | Creating(sweep: Sweep, given: Option<nat>)

  /** The stores, the number of accounts ever made, every process ever started, and the tokens ever granted. */
  datatype State = State(world: World, made: nat, procs: seq<Proc>, granted: set<string>)

  datatype Job = SignsIn(who: Who) | SignsOut(accounts: bool) | Removes | Creates

  /** A process starts with its first call, or takes its next step; another account takes or frees the GitHub id. */
  datatype Move = Start(job: Job, succeeds: bool) | Go(i: nat, succeeds: bool) | Claim(taken: bool)

  function StartStep(s: State, job: Job, succeeds: bool): State {
    var w := s.world;
    match job
    case SignsIn(who) =>
      // GitHub grants every sign-in a token of its own.
      if who.mine in s.granted then s
      else s.(procs := s.procs + [Connecting(Begin(who, w, succeeds))], granted := s.granted + {who.mine})
    case SignsOut(accounts) => s.(procs := s.procs + [Disconnecting(Leave(w, accounts, succeeds))])
    case Removes =>
      // The row takes the link with it; the token is swept later.
      if !succeeds || w.born.None? then s
      else s.(world := w.(born := None, link := None), procs := s.procs + [Removing(w.born.value, Looking(0))])
    case Creates => if w.born.Some? then s else s.(procs := s.procs + [Creating(Looking(0), None)])
  }

  /** One step of a process on the world it finds; making an account takes the next number. */
  function ProcStep(p: Proc, w: World, made: nat, succeeds: bool): (Proc, World, nat) {
    match p
    case Connecting(a) =>
      var (a', w') := SignInStep(a, w, succeeds);
      (Connecting(a'), w', made)
    case Disconnecting(t) =>
      var (t', w') := DisconnectStep(t, w, succeeds);
      (Disconnecting(t'), w', made)
    case Removing(account, sweep) =>
      var (sweep', w') := SweepStep(sweep, w, succeeds);
      (Removing(account, sweep'), w', made)
    case Creating(sweep, given) =>
      if sweep.Clear? && given.None? then
        (if succeeds && w.born.None? then (Creating(Clear, Some(made)), w.(born := Some(made)), made + 1)
         else (Creating(Failed, None), w, made))
      else
        var (sweep', w') := SweepStep(sweep, w, succeeds);
        (Creating(sweep', given), w', made)
  }

  function Step(s: State, m: Move): State {
    match m
    case Start(job, succeeds) => StartStep(s, job, succeeds)
    case Go(i, succeeds) =>
      if i >= |s.procs| then s
      else
        var (p, w, made) := ProcStep(s.procs[i], s.world, s.made, succeeds);
        s.(world := w, made := made, procs := s.procs[i := p])
    case Claim(taken) => s.(world := s.world.(idTaken := taken))
  }

  /** The state before move `n`. */
  function At(s: State, moves: seq<Move>, n: nat): State
    requires n <= |moves|
  {
    if n == 0 then s else Step(At(s, moves, n - 1), moves[n - 1])
  }

  predicate SignInAt(s: State, i: nat, phase: Phase) {
    i < |s.procs| && s.procs[i].Connecting? && s.procs[i].a.phase == phase
  }

  // ----- whose token, whose link

  predicate IsSignIn(s: State, i: int) {
    0 <= i < |s.procs| && s.procs[i].Connecting?
  }

  function Mine(s: State, i: int): string
    requires IsSignIn(s, i)
  {
    s.procs[i].a.who.mine
  }

  /** Tokens are granted once. */
  ghost predicate Granted(s: State) {
    && (forall i | IsSignIn(s, i) :: Mine(s, i) in s.granted)
    && (forall i, j | IsSignIn(s, i) && IsSignIn(s, j) && i != j :: Mine(s, i) != Mine(s, j))
    && (s.world.token.Some? ==> s.world.token.value in s.granted)
    && (s.world.link.Some? ==> s.world.link.value.maker in s.granted)
  }

  /** Accounts are numbered as they are made, and a removed one does not come back. */
  ghost predicate Numbered(s: State) {
    && (s.world.born.Some? ==> s.world.born.value < s.made)
    && (forall i | IsSignIn(s, i) && s.procs[i].a.began.Some? ::
          s.procs[i].a.began.value < s.made && s.procs[i].a.who.asks)
    && (forall q | 0 <= q < |s.procs| && s.procs[q].Removing? :: s.procs[q].account < s.made && s.world.born != Some(s.procs[q].account))
  }

  /** The account was removed and the sweep after it has not found the name clear: it is still to come, under way, or failed. */
  ghost predicate Unswept(s: State, account: nat) {
    exists q :: 0 <= q < |s.procs| && s.procs[q].Removing? && s.procs[q].account == account && !s.procs[q].sweep.Clear?
  }

  predicate HasStored(phase: Phase) {
    phase.Rechecking? || phase.TakingBack? || phase.Deleting? || phase.LeftBehind? || phase.Succeeded?
  }

  /** A sign-in whose token is stored has saved it, and one that succeeded for an account no longer there is not swept yet. */
  ghost predicate TokenIsRight(s: State) {
    forall i | IsSignIn(s, i) && s.world.token == Some(Mine(s, i)) ::
      var a := s.procs[i].a;
      HasStored(a.phase) && (a.phase.Succeeded? && a.began.Some? && s.world.born != a.began ==> Unswept(s, a.began.value))
  }

  /** The link of a sign-in is there only with the account it began for. */
  ghost predicate LinkIsRight(s: State) {
    && (s.world.link.Some? ==> s.world.born.Some?)
    && forall i | IsSignIn(s, i) && s.world.link.Some? && s.world.link.value.maker == Mine(s, i) ::
         s.procs[i].a.began.Some? && s.procs[i].a.began == s.world.born
  }

  ghost predicate Safe(s: State) {
    Granted(s) && Numbered(s) && TokenIsRight(s) && LinkIsRight(s)
  }

  /** No process has started yet. */
  predicate Fresh(s: State) {
    && s.procs == []
    && (s.world.born.Some? ==> s.world.born.value < s.made)
    && (s.world.token.Some? ==> s.world.token.value in s.granted)
    && (s.world.link.Some? ==> s.world.born.Some? && s.world.link.value.maker in s.granted)
  }

  lemma FreshIsSafe(s: State)
    requires Fresh(s)
    ensures Safe(s)
  {}

  /** What one step of a process can do to the stores. */
  lemma ProcEffect(p: Proc, w: World, made: nat, succeeds: bool)
    ensures var (p', w', made') := ProcStep(p, w, made, succeeds);
            && made <= made' && (w'.born != w.born ==> w.born == None && w'.born == Some(made) && made' == made + 1)
            && (p.Connecting? <==> p'.Connecting?) && (p.Removing? <==> p'.Removing?)
            && (p.Connecting? ==> p'.a.who == p.a.who && p'.a.began == p.a.began && w'.born == w.born)
            && (p.Removing? ==> p'.account == p.account && w'.born == w.born)
            && (w'.link != w.link ==>
                  w'.link == None || (w.link.Some? && w'.link.Some? && w'.link.value.maker == w.link.value.maker)
                  || (p.Connecting? && w'.link == Some(Link(p.a.who.mine, true)) && p.a.began.Some? && w.born == p.a.began))
            && (w'.token != w.token ==>
                  w'.token == None || (p.Connecting? && p.a.phase.Saving? && p'.a.phase.Rechecking? && w'.token == Some(p.a.who.mine)))
  {}

  /** A step keeps every sign-in that was there, with its token and the account it began for. */
  lemma SameSignIns(s: State, i: nat, succeeds: bool)
    requires i < |s.procs|
    ensures var t := Step(s, Go(i, succeeds));
            |t.procs| == |s.procs| && t.granted == s.granted
            && forall j :: (IsSignIn(t, j) <==> IsSignIn(s, j))
                 && (IsSignIn(s, j) ==> Mine(t, j) == Mine(s, j) && t.procs[j].a.began == s.procs[j].a.began)
  {
    ProcEffect(s.procs[i], s.world, s.made, succeeds);
    hide ProcStep;
  }

  lemma GrantedStep(s: State, m: Move)
    requires Granted(s)
    ensures Granted(Step(s, m))
  {
    if m.Go? && m.i < |s.procs| {
      SameSignIns(s, m.i, m.succeeds);
      ProcEffect(s.procs[m.i], s.world, s.made, m.succeeds);
      assert IsSignIn(s, m.i) == s.procs[m.i].Connecting?;
      assert IsSignIn(s, m.i) ==> Mine(s, m.i) == s.procs[m.i].a.who.mine;
      hide ProcStep, IsSignIn, Mine;
    } else if m.Start? {
      StartedSignIns(s, m.job, m.succeeds);
      hide IsSignIn, Mine, StartStep;
      var t := Step(s, m);
      forall i, j | IsSignIn(t, i) && IsSignIn(t, j) && i != j
        ensures Mine(t, i) != Mine(t, j)
      {
        if IsSignIn(s, i) { assert Mine(t, i) == Mine(s, i); }
        if IsSignIn(s, j) { assert Mine(t, j) == Mine(s, j); }
      }
    } else {
      var t := Step(s, m);
      assert forall i :: IsSignIn(t, i) ==> IsSignIn(s, i) && Mine(t, i) == Mine(s, i);
    }
  }

  /** A start keeps every sign-in that was there, and adds at most one with a new token. */
  lemma StartedSignIns(s: State, job: Job, succeeds: bool)
    ensures var t := StartStep(s, job, succeeds);
            && s.granted <= t.granted
            && (t.world.token == s.world.token && (t.world.link == s.world.link || t.world.link.None?))
            && (forall j | IsSignIn(s, j) :: IsSignIn(t, j) && Mine(t, j) == Mine(s, j))
            && forall j | IsSignIn(t, j) :: IsSignIn(s, j) || (j == |s.procs| && Mine(t, j) !in s.granted && Mine(t, j) in t.granted)
  {}

  lemma NumberedStep(s: State, m: Move)
    requires Numbered(s)
    ensures Numbered(Step(s, m))
  {
    if m.Go? && m.i < |s.procs| {
      ProcEffect(s.procs[m.i], s.world, s.made, m.succeeds);
      hide ProcStep;
    }
  }

  lemma LinkStep(s: State, m: Move)
    requires Granted(s) && LinkIsRight(s)
    ensures LinkIsRight(Step(s, m))
  {
    if m.Go? && m.i < |s.procs| {
      SameSignIns(s, m.i, m.succeeds);
      ProcEffect(s.procs[m.i], s.world, s.made, m.succeeds);
      assert IsSignIn(s, m.i) == s.procs[m.i].Connecting?;
      assert IsSignIn(s, m.i) ==> Mine(s, m.i) == s.procs[m.i].a.who.mine;
      hide ProcStep, IsSignIn, Mine;
    }
  }

  /** A sign-in keeps its token's right to be there, and a sweep ends clear only on a name without one. */
  lemma ProcKeeps(p: Proc, w: World, made: nat, succeeds: bool)
    ensures var (p', w', made') := ProcStep(p, w, made, succeeds);
            && (p.Connecting? && w'.token == Some(p.a.who.mine) && (w.token == Some(p.a.who.mine) ==> HasStored(p.a.phase)) ==> HasStored(p'.a.phase))
            && (p.Connecting? && p'.a.phase.Succeeded? && !p.a.phase.Succeeded? ==> p.a.who.asks ==> w.born == p.a.began)
            && (p.Removing? && p'.sweep.Clear? && !p.sweep.Clear? ==> w'.token == None)
  {}

  lemma UnsweptStays(s: State, m: Move, account: nat)
    requires Unswept(s, account) && Step(s, m).world.token.Some?
    ensures Unswept(Step(s, m), account)
  {
    var q :| 0 <= q < |s.procs| && s.procs[q].Removing? && s.procs[q].account == account && !s.procs[q].sweep.Clear?;
    if m.Go? && m.i < |s.procs| {
      ProcEffect(s.procs[m.i], s.world, s.made, m.succeeds);
      ProcKeeps(s.procs[m.i], s.world, s.made, m.succeeds);
      hide ProcStep;
    }
    assert Step(s, m).procs[q].Removing?;
  }

  lemma TokenStep(s: State, m: Move)
    requires Granted(s) && Numbered(s) && TokenIsRight(s)
    ensures TokenIsRight(Step(s, m))
  {
    var t := Step(s, m);
    forall i | IsSignIn(t, i) && t.world.token == Some(Mine(t, i))
      ensures HasStored(t.procs[i].a.phase)
      ensures t.procs[i].a.phase.Succeeded? && t.procs[i].a.began.Some? && t.world.born != t.procs[i].a.began ==> Unswept(t, t.procs[i].a.began.value)
    {
      match m
      case Start(job, succeeds) => TokenStart(s, job, succeeds, i);
      case Go(j, succeeds) => if j < |s.procs| { TokenGo(s, j, succeeds, i); }
      case Claim(_) =>
        if t.procs[i].a.began.Some? && Unswept(s, t.procs[i].a.began.value) { UnsweptStays(s, m, t.procs[i].a.began.value); }
    }
  }

  lemma TokenStart(s: State, job: Job, succeeds: bool, i: nat)
    requires Granted(s) && Numbered(s) && TokenIsRight(s)
    requires var t := Step(s, Start(job, succeeds)); IsSignIn(t, i) && t.world.token == Some(Mine(t, i))
    ensures var t := Step(s, Start(job, succeeds)); var a := t.procs[i].a;
            HasStored(a.phase) && (a.phase.Succeeded? && a.began.Some? && t.world.born != a.began ==> Unswept(t, a.began.value))
  {
    var m := Start(job, succeeds);
    var t := Step(s, m);
    assert IsSignIn(s, i);
    var a := t.procs[i].a;
    if a.began.Some? {
      if Unswept(s, a.began.value) { UnsweptStays(s, m, a.began.value); }
      if job.Removes? && s.world.born == a.began && succeeds { assert t.procs[|s.procs|] == Removing(a.began.value, Looking(0)); }
    }
  }

  lemma TokenGo(s: State, j: nat, succeeds: bool, i: nat)
    requires Granted(s) && Numbered(s) && TokenIsRight(s) && j < |s.procs|
    requires var t := Step(s, Go(j, succeeds)); IsSignIn(t, i) && t.world.token == Some(Mine(t, i))
    ensures var t := Step(s, Go(j, succeeds)); var a := t.procs[i].a;
            HasStored(a.phase) && (a.phase.Succeeded? && a.began.Some? && t.world.born != a.began ==> Unswept(t, a.began.value))
  {
    var m := Go(j, succeeds);
    var t := Step(s, m);
    ProcEffect(s.procs[j], s.world, s.made, succeeds);
    ProcKeeps(s.procs[j], s.world, s.made, succeeds);
    hide ProcStep, HasStored;
    assert IsSignIn(s, i) && Mine(s, i) == Mine(t, i) && IsSignIn(s, j) == s.procs[j].Connecting?;
    var a := t.procs[i].a;
    if a.began.Some? && Unswept(s, a.began.value) { UnsweptStays(s, m, a.began.value); }
  }

  lemma StepIsSafe(s: State, m: Move)
    requires Safe(s)
    ensures Safe(Step(s, m))
  {
    GrantedStep(s, m);
    NumberedStep(s, m);
    TokenStep(s, m);
    LinkStep(s, m);
    hide *;
  }

  /** Every run keeps the stores safe, in any interleaving of sign-ins, disconnects, removals, sweeps and creations. */
  lemma {:induction false} RunsAreSafe(s: State, moves: seq<Move>, n: nat)
    requires Fresh(s) && n <= |moves|
    ensures Safe(At(s, moves, n))
    decreases n
  {
    hide Step, Safe, Fresh;
    if n == 0 {
      FreshIsSafe(s);
    } else {
      RunsAreSafe(s, moves, n - 1);
      StepIsSafe(At(s, moves, n - 1), moves[n - 1]);
    }
  }
}
