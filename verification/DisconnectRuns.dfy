/** What every disconnect of a run left: each one is a disconnect on the worlds its steps found, and when a link is left without a token. */
module DisconnectRuns {
  import opened Options
  import opened Credentials
  import opened CredentialRuns
  import opened SignInRuns

  predicate DisconnectAt(s: State, q: nat) {
    q < |s.procs| && s.procs[q].Disconnecting?
  }

  // ----- every disconnect of a run is a disconnect

  /** The steps of a disconnect before move `n`: the worlds they found, their luck, and the worlds they left. */
  datatype Turns = Turns(found: seq<World>, lucks: seq<bool>, left: seq<World>)

  function TurnsOf(s: State, moves: seq<Move>, k: nat, n: nat, q: nat): (r: Turns)
    requires k < n <= |moves|
    ensures |r.found| == |r.lucks|
    decreases n
  {
    if n == k + 1 then Turns([], [], [])
    else
      var before, m, t := TurnsOf(s, moves, k, n - 1, q), moves[n - 1], At(s, moves, n - 1);
      if m.Go? && m.i == q && DisconnectAt(t, q) && !Ended(t.procs[q].t) then
        Turns(before.found + [t.world], before.lucks + [m.succeeds], before.left + [At(s, moves, n).world])
      else before
  }

  function OneMore(played: (Turn, seq<World>), x: World, luck: bool): (Turn, seq<World>) {
    var (end, left) := played;
    if Ended(end) then (end, left)
    else
      var (t', w') := DisconnectStep(end, x, luck);
      (t', left + [w'])
  }

  lemma {:induction false} PlayOutMore(t: Turn, found: seq<World>, lucks: seq<bool>, x: World, luck: bool)
    requires |found| == |lucks|
    ensures PlayOut(t, found + [x], lucks + [luck]) == OneMore(PlayOut(t, found, lucks), x, luck)
    decreases |found|
  {
    hide DisconnectStep, Ended;
    if found == [] {
      assert [] + [x] == [x] && [] + [luck] == [luck];
      assert ([x])[1..] == [] && ([luck])[1..] == [];
      if !Ended(t) {
        var (t', w') := DisconnectStep(t, x, luck);
        NoTurns(t');
        assert [w'] + [] == [] + [w'];
      }
    } else if !Ended(t) {
      var (t', w') := DisconnectStep(t, found[0], lucks[0]);
      assert (found + [x])[1..] == found[1..] + [x] && (lucks + [luck])[1..] == lucks[1..] + [luck];
      PlayOutMore(t', found[1..], lucks[1..], x, luck);
      var (end, left) := PlayOut(t', found[1..], lucks[1..]);
      assert [w'] + (left + [DisconnectStep(end, x, luck).1]) == [w'] + left + [DisconnectStep(end, x, luck).1];
    }
  }

  lemma NoTurns(t: Turn)
    ensures PlayOut(t, [], []) == (t, [])
  {}

  /** How far a disconnect is; every step takes it further. */
  function Distance(t: Turn): (r: nat)
    ensures r <= TURNS
  {
    match t
    case Loading(_) => 0
    case Unlinking(_) => 1
    case Dropping => 2
    case Filing => 3
    case _ => TURNS
  }

  lemma TurnsAhead(t: Turn, w: World, succeeds: bool)
    requires !Ended(t)
    ensures Distance(DisconnectStep(t, w, succeeds).0) > Distance(t)
  {}

  lemma EndedStays(t: Turn, w: World, succeeds: bool)
    requires Ended(t)
    ensures DisconnectStep(t, w, succeeds) == (t, w)
  {}

  lemma Left(s: State, accounts: bool, succeeds: bool)
    ensures Step(s, Start(SignsOut(accounts), succeeds)) == s.(procs := s.procs + [Disconnecting(Leave(s.world, accounts, succeeds))])
  {}

  lemma {:induction false} TurnsArePlayed(s: State, moves: seq<Move>, k: nat, n: nat, q: nat)
    requires k < n <= |moves| && moves[k].Start? && moves[k].job.SignsOut? && q == |At(s, moves, k).procs|
    ensures DisconnectAt(At(s, moves, n), q)
    ensures var turns := TurnsOf(s, moves, k, n, q);
            && PlayOut(Leave(At(s, moves, k).world, moves[k].job.accounts, moves[k].succeeds), turns.found, turns.lucks)
               == (At(s, moves, n).procs[q].t, turns.left)
            && |turns.found| <= Distance(At(s, moves, n).procs[q].t)
    decreases n
  {
    hide At, Step, DisconnectStep, Leave, PlayOut;
    var t := Leave(At(s, moves, k).world, moves[k].job.accounts, moves[k].succeeds);
    if n == k + 1 {
      AtNext(s, moves, k);
      Left(At(s, moves, k), moves[k].job.accounts, moves[k].succeeds);
      NoTurns(t);
    } else {
      TurnsArePlayed(s, moves, k, n - 1, q);
      var before, now, m := TurnsOf(s, moves, k, n - 1, q), At(s, moves, n - 1), moves[n - 1];
      AtNext(s, moves, n - 1);
      OwnStep(now, m, q);
      if m.Go? && m.i == q {
        if Ended(now.procs[q].t) {
          EndedStays(now.procs[q].t, now.world, m.succeeds);
        } else {
          PlayOutMore(t, before.found, before.lucks, now.world, m.succeeds);
          TurnsAhead(now.procs[q].t, now.world, m.succeeds);
        }
      }
    }
  }

  lemma {:induction false} PlayOutPadded(t: Turn, found: seq<World>, lucks: seq<bool>, more: seq<World>, luck: seq<bool>)
    requires |found| == |lucks| && |more| == |luck| && Ended(PlayOut(t, found, lucks).0)
    ensures PlayOut(t, found + more, lucks + luck) == PlayOut(t, found, lucks)
    decreases |found|
  {
    hide DisconnectStep, Ended;
    if found == [] {
      assert [] + more == more && [] + luck == luck;
    } else if !Ended(t) {
      var (t', w') := DisconnectStep(t, found[0], lucks[0]);
      assert (found + more)[1..] == found[1..] + more && (lucks + luck)[1..] == lucks[1..] + luck;
      PlayOutPadded(t', found[1..], lucks[1..], more, luck);
    }
  }

  /** Every disconnect of a run that ended or failed did what `Disconnect` does on the worlds its steps found, and each step left what that leaves. */
  lemma DisconnectsAreDisconnects(s: State, moves: seq<Move>, k: nat, n: nat, q: nat, more: seq<World>, luck: seq<bool>)
    requires k < n <= |moves| && moves[k].Start? && moves[k].job.SignsOut? && q == |At(s, moves, k).procs|
    requires DisconnectAt(At(s, moves, n), q) ==> Ended(At(s, moves, n).procs[q].t)
    requires |TurnsOf(s, moves, k, n, q).found| + |more| == TURNS && |more| == |luck|
    ensures DisconnectAt(At(s, moves, n), q)
    ensures var turns, w, accounts := TurnsOf(s, moves, k, n, q), At(s, moves, k).world, moves[k].job.accounts;
            var linked, found := accounts && w.link.Some?, turns.found + more;
            var c, g := ChanceOf(moves[k].succeeds, linked, found, turns.lucks + luck), StopsOf(linked, found);
            turns.left == LeftBy(w, accounts, c, g) && (At(s, moves, n).procs[q].t.Done? <==> Disconnect(w, accounts, c, g).1)
  {
    hide At, Step, PlayOut, Leave, Disconnect, LeftBy, TurnsOf, ChanceOf, StopsOf;
    TurnsArePlayed(s, moves, k, n, q);
    var w, accounts, turns := At(s, moves, k).world, moves[k].job.accounts, TurnsOf(s, moves, k, n, q);
    PlayOutPadded(Leave(w, accounts, moves[k].succeeds), turns.found, turns.lucks, more, luck);
    PlayIsDisconnect(w, accounts, moves[k].succeeds, turns.found + more, turns.lucks + luck);
  }

  // ----- links without a token

  /** A link without a token. */
  predicate Stranded(w: World) {
    w.link.Some? && w.token.None?
  }

  /** A sign-in's link lands. */
  predicate MakesLink(s: State, m: Move) {
    m.Go? && SignInAt(s, m.i, Linking) && CanLink(s.world, s.procs[m.i].a.began, m.succeeds)
  }

  /** A removal takes the link with its account, or a disconnect removes it. */
  predicate DropsLink(s: State, m: Move) {
    || (m.Start? && m.job.Removes? && m.succeeds && s.world.born.Some?)
    || (m.Go? && DisconnectAt(s, m.i) && s.procs[m.i].t.Unlinking? && m.succeeds)
  }

  /** The token is deleted: taken back, by a disconnect, or by the sweep of a removal or a creation. */
  predicate DropsToken(s: State, m: Move) {
    && m.Go? && m.i < |s.procs| && m.succeeds
    && match s.procs[m.i]
       case Connecting(a) => a.phase.Deleting?
       case Disconnecting(t) => t.Dropping?
       case Removing(_, sweep) => sweep.Wiping?
       case Creating(sweep, _) => sweep.Wiping?
  }

  /** A link is there after a move exactly when the move made one, or one was there that it did not drop. */
  lemma LinkMoves(s: State, m: Move)
    ensures Step(s, m).world.link.Some? <==> MakesLink(s, m) || (s.world.link.Some? && !DropsLink(s, m))
  {}

  /** A move leaves a link without a token exactly when it links with no token there, or deletes the token under a link. */
  lemma StrandsBy(s: State, m: Move)
    requires !Stranded(s.world)
    ensures Stranded(Step(s, m).world)
       <==> (MakesLink(s, m) && s.world.token.None?) || (s.world.link.Some? && DropsToken(s, m))
  {}

  /** A link that was gone after move `u` is there at `n` exactly when one was made in between and not dropped since. */
  lemma {:induction false} LinkSince(s: State, moves: seq<Move>, u: nat, n: nat)
    requires u < n <= |moves| && At(s, moves, u + 1).world.link.None?
    ensures At(s, moves, n).world.link.Some? <==> LinkMade(s, moves, u, n)
    decreases n
  {
    hide At, Step, MakesLink, DropsLink;
    if n > u + 1 {
      LinkSince(s, moves, u, n - 1);
      AtNext(s, moves, n - 1);
      LinkMoves(At(s, moves, n - 1), moves[n - 1]);
      if LinkMade(s, moves, u, n - 1) && !DropsLink(At(s, moves, n - 1), moves[n - 1]) {
        var m :| u < m < n - 1 && MakesLink(At(s, moves, m), moves[m]) && forall x | m < x < n - 1 :: !DropsLink(At(s, moves, x), moves[x]);
        assert forall x | m < x < n :: !DropsLink(At(s, moves, x), moves[x]);
      }
      if MakesLink(At(s, moves, n - 1), moves[n - 1]) { assert LinkMade(s, moves, u, n); }
    }
  }

  /** A sign-in linked after move `u` and before `n`, and the link was not dropped since. */
  ghost predicate LinkMade(s: State, moves: seq<Move>, u: nat, n: nat)
    requires n <= |moves|
  {
    exists m :: u < m < n && MakesLink(At(s, moves, m), moves[m]) && forall x | m < x < n :: !DropsLink(At(s, moves, x), moves[x])
  }

  /** What each step of a disconnect has behind it. */
  lemma TurnFrom(t: Turn, w: World, succeeds: bool)
    requires !Ended(t)
    ensures var (t', w') := DisconnectStep(t, w, succeeds);
            && (t'.Done? ==> t.Filing? && w'.file.None? && w'.token == w.token && w'.link == w.link)
            && (t'.Filing? ==>
                  || (t.Dropping? && succeeds && w'.token.None?)
                  || (t == Unlinking(false) && succeeds && w'.link.None?)
                  || (t == Loading(false) && w'.token.None?))
            && (t'.Dropping? ==> t == Loading(false) || (t == Unlinking(true) && succeeds && w'.link.None?))
            && (t' == Unlinking(false) ==> t.Loading? && w'.token.None?)
            && !t'.Loading?
  {}

  predicate Past(t: Turn) {
    t.Dropping? || t.Filing? || t.Done?
  }

  /** Move `u` is where disconnect `q`, started at `k`, removed the link, or the start that found none. */
  predicate Unlinks(s: State, moves: seq<Move>, k: nat, u: nat, q: nat) {
    && k <= u < |moves| && At(s, moves, u + 1).world.link.None?
    && (u == k || (moves[u] == Go(q, true) && DisconnectAt(At(s, moves, u), q) && At(s, moves, u).procs[q].t.Unlinking?))
  }

  /** Move `v` is the step of disconnect `q` that deleted the token or found none. */
  predicate Untokens(s: State, moves: seq<Move>, k: nat, v: nat, q: nat) {
    k < v < |moves| && moves[v].Go? && moves[v].i == q && At(s, moves, v + 1).world.token.None?
  }

  /** Where a disconnect that is past its link removed it, or found none. */
  lemma {:induction false} LinkGone(s: State, moves: seq<Move>, k: nat, n: nat, q: nat) returns (u: nat)
    requires k < n <= |moves| && moves[k].Start? && moves[k].job.SignsOut? && q == |At(s, moves, k).procs|
    requires moves[k].job.accounts || At(s, moves, k).world.link.None?
    requires DisconnectAt(At(s, moves, n), q) && Past(At(s, moves, n).procs[q].t)
    ensures u < n && Unlinks(s, moves, k, u, q)
    decreases n
  {
    hide At, Step, DisconnectStep, Leave;
    AtNext(s, moves, n - 1);
    AtNext(s, moves, k);
    Left(At(s, moves, k), moves[k].job.accounts, moves[k].succeeds);
    LeaveWaits(At(s, moves, k).world, moves[k].job.accounts, moves[k].succeeds);
    if n > k + 1 {
      TurnsArePlayed(s, moves, k, n - 1, q);
      var now, move := At(s, moves, n - 1), moves[n - 1];
      OwnStep(now, move, q);
      if move.Go? && move.i == q && !Past(now.procs[q].t) {
        if Ended(now.procs[q].t) { EndedStays(now.procs[q].t, now.world, move.succeeds); }
        TurnFrom(now.procs[q].t, now.world, move.succeeds);
        if now.procs[q].t.Loading? {
          StillLoading(s, moves, k, n - 1, q);
          LeaveFinds(At(s, moves, k).world, moves[k].job.accounts, moves[k].succeeds);
          u := k;
        } else {
          u := n - 1;
        }
      } else {
        u := LinkGone(s, moves, k, n - 1, q);
      }
    }
  }

  lemma LeaveWaits(w: World, accounts: bool, succeeds: bool)
    ensures Leave(w, accounts, succeeds).Loading? || Leave(w, accounts, succeeds) == Stopped
  {}

  lemma StillLoading(s: State, moves: seq<Move>, k: nat, n: nat, q: nat)
    requires k < n <= |moves| && moves[k].Start? && moves[k].job.SignsOut? && q == |At(s, moves, k).procs|
    requires DisconnectAt(At(s, moves, n), q) && At(s, moves, n).procs[q].t.Loading?
    ensures At(s, moves, n).procs[q].t == Leave(At(s, moves, k).world, moves[k].job.accounts, moves[k].succeeds)
  {
    hide At, Leave, PlayOut;
    TurnsArePlayed(s, moves, k, n, q);
    assert TurnsOf(s, moves, k, n, q).found == [];
    NoTurns(Leave(At(s, moves, k).world, moves[k].job.accounts, moves[k].succeeds));
  }

  /**
   * In any run, a disconnect that deletes the token leaves a link without
   * one exactly when a sign-in linked since the disconnect removed the link,
   * or since it found none, and that link was not dropped again.
   */
  lemma {:induction false} DisconnectStrands(s: State, moves: seq<Move>, k: nat, n: nat, q: nat) returns (u: nat)
    requires k < n < |moves| && moves[k].Start? && moves[k].job.SignsOut? && q == |At(s, moves, k).procs|
    requires moves[k].job.accounts || At(s, moves, k).world.link.None?
    requires moves[n] == Go(q, true) && DisconnectAt(At(s, moves, n), q) && At(s, moves, n).procs[q].t.Dropping?
    ensures u < n && Unlinks(s, moves, k, u, q)
    ensures Stranded(At(s, moves, n + 1).world) <==> LinkMade(s, moves, u, n)
  {
    hide At, Step, DisconnectStep, Leave, LinkMade;
    u := LinkGone(s, moves, k, n, q);
    LinkSince(s, moves, u, n);
    AtNext(s, moves, n);
    Drops(At(s, moves, n), q);
  }

  // ----- what a disconnect that is done leaves

  /** A sign-in's save lands. */
  predicate MakesToken(s: State, m: Move) {
    m.Go? && SignInAt(s, m.i, Saving) && m.succeeds
  }

  lemma TokenMoves(s: State, m: Move)
    ensures Step(s, m).world.token.Some? <==> MakesToken(s, m) || (s.world.token.Some? && !DropsToken(s, m))
  {}

  /** A sign-in saved after move `v` and before `n`, and the token was not deleted since. */
  ghost predicate TokenMade(s: State, moves: seq<Move>, v: nat, n: nat)
    requires n <= |moves|
  {
    exists m :: v < m < n && MakesToken(At(s, moves, m), moves[m]) && forall x | m < x < n :: !DropsToken(At(s, moves, x), moves[x])
  }

  lemma {:induction false} TokenSince(s: State, moves: seq<Move>, v: nat, n: nat)
    requires v < n <= |moves| && At(s, moves, v + 1).world.token.None?
    ensures At(s, moves, n).world.token.Some? <==> TokenMade(s, moves, v, n)
    decreases n
  {
    hide At, Step, MakesToken, DropsToken;
    if n > v + 1 {
      TokenSince(s, moves, v, n - 1);
      AtNext(s, moves, n - 1);
      TokenMoves(At(s, moves, n - 1), moves[n - 1]);
      if TokenMade(s, moves, v, n - 1) && !DropsToken(At(s, moves, n - 1), moves[n - 1]) {
        var m :| v < m < n - 1 && MakesToken(At(s, moves, m), moves[m]) && forall x | m < x < n - 1 :: !DropsToken(At(s, moves, x), moves[x]);
        assert forall x | m < x < n :: !DropsToken(At(s, moves, x), moves[x]);
      }
      if MakesToken(At(s, moves, n - 1), moves[n - 1]) { assert TokenMade(s, moves, v, n); }
    }
  }

  /** Where a disconnect that is past its token deleted it, or found none. */
  lemma {:induction false} TokenGone(s: State, moves: seq<Move>, k: nat, n: nat, q: nat) returns (v: nat)
    requires k < n <= |moves| && moves[k].Start? && moves[k].job.SignsOut? && q == |At(s, moves, k).procs|
    requires DisconnectAt(At(s, moves, n), q)
    requires var t := At(s, moves, n).procs[q].t; t == Unlinking(false) || t.Filing? || t.Done?
    ensures v < n && Untokens(s, moves, k, v, q)
    decreases n
  {
    hide At, Step, DisconnectStep, Leave;
    AtNext(s, moves, n - 1);
    Left(At(s, moves, k), moves[k].job.accounts, moves[k].succeeds);
    LeaveWaits(At(s, moves, k).world, moves[k].job.accounts, moves[k].succeeds);
    if n > k + 1 {
      TurnsArePlayed(s, moves, k, n - 1, q);
      var now, move := At(s, moves, n - 1), moves[n - 1];
      OwnStep(now, move, q);
      if move.Go? && move.i == q && !Ended(now.procs[q].t) {
        DisconnectMoves(now, move, q);
        TurnFrom(now.procs[q].t, now.world, move.succeeds);
        if now.procs[q].t.Loading? || now.procs[q].t.Dropping? { v := n - 1; return; }
      } else if move.Go? && move.i == q {
        EndedStays(now.procs[q].t, now.world, move.succeeds);
      }
      v := TokenGone(s, moves, k, n - 1, q);
    }
  }

  lemma DisconnectMoves(s: State, m: Move, q: nat)
    requires DisconnectAt(s, q) && m.Go? && m.i == q
    ensures DisconnectStep(s.procs[q].t, s.world, m.succeeds) == (Step(s, m).procs[q].t, Step(s, m).world)
  {
    hide DisconnectStep;
  }

  /** Nothing in these runs makes the left-over file. */
  lemma FileMoves(s: State, m: Move)
    ensures Step(s, m).world.file.Some? ==> s.world.file.Some?
  {}

  lemma {:induction false} FileGone(s: State, moves: seq<Move>, k: nat, n: nat, q: nat)
    requires k < n <= |moves| && moves[k].Start? && moves[k].job.SignsOut? && q == |At(s, moves, k).procs|
    requires DisconnectAt(At(s, moves, n), q) && At(s, moves, n).procs[q].t.Done?
    ensures At(s, moves, n).world.file.None?
    decreases n
  {
    hide At, Step, DisconnectStep, Leave;
    AtNext(s, moves, n - 1);
    Left(At(s, moves, k), moves[k].job.accounts, moves[k].succeeds);
    LeaveWaits(At(s, moves, k).world, moves[k].job.accounts, moves[k].succeeds);
    if n > k + 1 {
      TurnsArePlayed(s, moves, k, n - 1, q);
      var now, move := At(s, moves, n - 1), moves[n - 1];
      OwnStep(now, move, q);
      FileMoves(now, move);
      if move.Go? && move.i == q && !Ended(now.procs[q].t) {
        DisconnectMoves(now, move, q);
        TurnFrom(now.procs[q].t, now.world, move.succeeds);
      } else {
        if move.Go? && move.i == q { EndedStays(now.procs[q].t, now.world, move.succeeds); }
        FileGone(s, moves, k, n - 1, q);
      }
    }
  }

  /**
   * In any run, after a disconnect is done there is no left-over file, a link
   * exactly when a sign-in linked since it removed the link or found none,
   * and a token exactly when a sign-in saved since it deleted the token or
   * found none.
   */
  lemma {:induction false} DoneLeaves(s: State, moves: seq<Move>, k: nat, n: nat, q: nat) returns (u: nat, v: nat)
    requires k < n <= |moves| && moves[k].Start? && moves[k].job.SignsOut? && q == |At(s, moves, k).procs|
    requires moves[k].job.accounts || At(s, moves, k).world.link.None?
    requires DisconnectAt(At(s, moves, n), q) && At(s, moves, n).procs[q].t.Done?
    ensures u < n && Unlinks(s, moves, k, u, q)
    ensures v < n && Untokens(s, moves, k, v, q)
    ensures var w := At(s, moves, n).world;
            && (w.link.Some? <==> LinkMade(s, moves, u, n)) && (w.token.Some? <==> TokenMade(s, moves, v, n)) && w.file.None?
  {
    hide At, Step, LinkMade, TokenMade;
    u := LinkGone(s, moves, k, n, q);
    v := TokenGone(s, moves, k, n, q);
    LinkSince(s, moves, u, n);
    TokenSince(s, moves, v, n);
    FileGone(s, moves, k, n, q);
  }

  lemma LeaveFinds(w: World, accounts: bool, succeeds: bool)
    ensures Leave(w, accounts, succeeds) == Loading(false) && (accounts || w.link.None?) ==> w.link.None?
  {}

  lemma Drops(s: State, q: nat)
    requires DisconnectAt(s, q) && s.procs[q].t.Dropping?
    ensures Step(s, Go(q, true)).world == s.world.(token := None)
  {}

  // ----- runs that make no link

  /** A disconnect only skips the accounts where there is no link to find. */
  predicate Reads(s: State, m: Move) {
    m.Start? && m.job.SignsOut? ==> m.job.accounts || s.world.link.None?
  }

  /** A process that may delete the token without looking for a link. */
  predicate PastLink(p: Proc) {
    match p
    case Connecting(_) => false
    case Disconnecting(t) => t.Dropping? || t == Loading(false)
    case _ => true
  }

  /** No such process runs under a link, and the link has its token. */
  ghost predicate Covered(s: State) {
    && !Stranded(s.world)
    && (s.world.link.Some? ==> s.world.born.Some?)
    && (s.world.link.Some? ==> forall q | 0 <= q < |s.procs| :: !PastLink(s.procs[q]))
  }

  lemma CoveredStep(s: State, m: Move)
    requires Covered(s) && Reads(s, m) && !MakesLink(s, m)
    requires !(DropsToken(s, m) && s.procs[m.i].Connecting?)
    ensures Covered(Step(s, m))
  {
    LinkMoves(s, m);
    StrandsBy(s, m);
    if s.world.link.Some? && !DropsLink(s, m) {
      if m.Go? && m.i < |s.procs| {
        assert !PastLink(s.procs[m.i]);
        PastLinkStep(s.procs[m.i], s.world, s.made, m.succeeds);
        ProcEffect(s.procs[m.i], s.world, s.made, m.succeeds);
      }
    }
  }

  lemma PastLinkStep(p: Proc, w: World, made: nat, succeeds: bool)
    requires !PastLink(p) && !(p.Disconnecting? && p.t.Unlinking? && succeeds)
    ensures !PastLink(ProcStep(p, w, made, succeeds).0)
  {}

  /** With any number of disconnects, removals, sweeps, creations and sign-ins that neither link nor take back, a link has its token at every point of every run. */
  lemma {:induction false} LinksKeepTheirToken(s: State, moves: seq<Move>, n: nat)
    requires Fresh(s) && !Stranded(s.world) && n <= |moves|
    requires forall m | 0 <= m < n :: Reads(At(s, moves, m), moves[m]) && !MakesLink(At(s, moves, m), moves[m])
    requires forall m | 0 <= m < n :: !(DropsToken(At(s, moves, m), moves[m]) && At(s, moves, m).procs[moves[m].i].Connecting?)
    ensures Covered(At(s, moves, n))
    decreases n
  {
    hide Step, Covered, Reads, MakesLink, DropsToken;
    if n == 0 {
      FreshCovered(s);
    } else {
      LinksKeepTheirToken(s, moves, n - 1);
      CoveredStep(At(s, moves, n - 1), moves[n - 1]);
    }
  }

  lemma FreshCovered(s: State)
    requires Fresh(s) && !Stranded(s.world)
    ensures Covered(s)
  {}
}
