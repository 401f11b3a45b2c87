/** Connecting a person to GitHub and disconnecting them, while the account can change underneath. */
module Credentials {
  import opened Options

  /** A link: the sign-in that made it, named by its token, and whether it is marked as having a live token. */
  datatype Link = Link(maker: string, live: bool)

  /** What the stores hold for one name: the account made there (accounts numbered as they are made), its link, the token, and the file a keychain failure left. `idTaken` says another account holds the GitHub id. */
  datatype World = World(born: Option<nat>, link: Option<Link>, token: Option<string>, file: Option<string>, idTaken: bool)

  /** Who connects: whether there are accounts to ask, whether the account is linked, and the token the sign-in granted. */
  datatype Who = Who(asks: bool, links: bool, mine: string)

  /** Which calls succeed. */
  datatype Luck = Luck(begin: bool, check: bool, link: bool, save: bool, mark: bool, recheck: bool, load: bool, delete: bool)

  /** The world each step finds: whatever happened since the step before. */
  datatype Gaps = Gaps(check: World, link: World, save: World, mark: World, recheck: World, load: World, delete: World)

  datatype End = End(world: World, ok: bool, saved: bool)

  // ----- the stores

  class Stores {
    var born: Option<nat>
    var link: Option<Link>
    var token: Option<string>
    var file: Option<string>
    var idTaken: bool

    function Contents(): World
      reads this
    {
      World(born, link, token, file, idTaken)
    }

    /** What others did meanwhile. */
    method Others(world: World)
      modifies this
      ensures Contents() == world
    {
      born, link, token, file, idTaken := world.born, world.link, world.token, world.file, world.idTaken;
    }

    method AccountBorn(succeeds: bool) returns (r: Result<Option<nat>>)
      ensures r == if succeeds then Ok(born) else Err
    {
      return if succeeds then Ok(born) else Err;
    }

    /** Link the account made at `began`; refused for any other, and when another account holds the GitHub id. */
    method LinkIfBorn(began: Option<nat>, mine: string, succeeds: bool) returns (done: bool)
      modifies this`link
      ensures done == (succeeds && began.Some? && born == began && !idTaken)
      ensures link == if done then Some(Link(mine, true)) else old(link)
    {
      if !succeeds || began.None? || born != began || idTaken { return false; }
      link := Some(Link(mine, true));
      return true;
    }

    method MarkTokenGone(succeeds: bool)
      modifies this`link
      ensures link == if succeeds && old(link).Some? then Some(old(link).value.(live := false)) else old(link)
    {
      if succeeds && link.Some? { link := Some(link.value.(live := false)); }
    }

    method Save(mine: string, succeeds: bool) returns (saved: bool)
      modifies this`token
      ensures saved == succeeds && token == if succeeds then Some(mine) else old(token)
    {
      if succeeds { token := Some(mine); }
      return succeeds;
    }

    method Load(succeeds: bool) returns (r: Result<Option<string>>)
      ensures r == if succeeds then Ok(token) else Err
    {
      return if succeeds then Ok(token) else Err;
    }

    method Delete(succeeds: bool) returns (deleted: bool)
      modifies this`token
      ensures deleted == succeeds && token == if succeeds then None else old(token)
    {
      if succeeds { token := None; }
      return succeeds;
    }
  }

  // ----- connecting

  /** The name no longer holds what it held, or could not be asked. */
  predicate Changed(who: Who, answered: bool, now: Option<nat>, began: Option<nat>) {
    who.asks && (!answered || now != began)
  }

  predicate CanLink(w: World, began: Option<nat>, succeeds: bool) {
    succeeds && began.Some? && w.born == began && !w.idTaken
  }

  function Marked(w: World, succeeds: bool): World {
    if succeeds && w.link.Some? then w.(link := Some(w.link.value.(live := false))) else w
  }

  /** A sign-in that came too late deletes the token it stored, unless another is stored by then. */
  function TakeBack(who: Who, luck: Luck, g: Gaps): World {
    if luck.load && g.load.token == Some(who.mine) then (if luck.delete then g.delete.(token := None) else g.delete)
    else g.load
  }

  /** What a connect leaves, wherever it stops. */
  function Connect(w: World, who: Who, luck: Luck, g: Gaps): End {
    if who.asks && !luck.begin then End(w, false, false)
    else
      var began := if who.asks then w.born else None;
      if Changed(who, luck.check, g.check.born, began) then End(g.check, false, false)
      else if who.links && !CanLink(g.link, began, luck.link) then End(g.link, false, false)
      else if !luck.save then End(if who.links then Marked(g.mark, luck.mark) else g.save, false, false)
      else if !Changed(who, luck.recheck, g.recheck.born, began) then End(g.recheck, true, true)
      else End(TakeBack(who, luck, g), false, true)
  }

  /** `connect_github` and the save steps of `PersonalApp::connect`: ask, link, save, ask again. */
  method ConnectPerson(stores: Stores, who: Who, luck: Luck, g: Gaps) returns (ok: bool, saved: bool)
    modifies stores
    ensures End(stores.Contents(), ok, saved) == Connect(old(stores.Contents()), who, luck, g)
  {
    var began: Option<nat> := None;
    if who.asks {
      var read := stores.AccountBorn(luck.begin);
      if read.Err? { return false, false; }
      began := read.value;
    }
    stores.Others(g.check);
    if who.asks {
      var now := stores.AccountBorn(luck.check);
      if now.Err? || now.value != began { return false, false; }
    }
    if who.links {
      stores.Others(g.link);
      var linked := stores.LinkIfBorn(began, who.mine, luck.link);
      if !linked { return false, false; }
    }
    stores.Others(g.save);
    saved := stores.Save(who.mine, luck.save);
    if !saved {
      if who.links {
        stores.Others(g.mark);
        stores.MarkTokenGone(luck.mark);
      }
      return false, false;
    }
    stores.Others(g.recheck);
    if who.asks {
      var now := stores.AccountBorn(luck.recheck);
      if now.Err? || now.value != began {
        stores.Others(g.load);
        var held := stores.Load(luck.load);
        if held == Ok(Some(who.mine)) {
          stores.Others(g.delete);
          var deleted := stores.Delete(luck.delete);
        }
        return false, true;
      }
    }
    return true, true;
  }

  /** The world after the link step, and after the save. */
  function Linked(g: Gaps, who: Who): World {
    if who.links then g.link.(link := Some(Link(who.mine, true))) else g.check
  }

  function Saved(g: Gaps, who: Who): World {
    g.save.(token := Some(who.mine))
  }

  /** What others do between two steps keeps a relation. */
  ghost predicate Between(w: World, who: Who, g: Gaps, rel: (World, World) -> bool) {
    && rel(w, g.check) && rel(g.check, g.link) && rel(Linked(g, who), g.save) && rel(g.save, g.mark)
    && rel(Saved(g, who), g.recheck) && rel(g.recheck, g.load) && rel(g.load, g.delete)
  }

  /** Nobody else stores this sign-in's token. */
  predicate NotMine(mine: string, a: World, b: World) {
    b.token == Some(mine) ==> a.token == Some(mine)
  }

  /** A refused connect leaves its own token stored exactly when it was saved, is still there as it is taken back, and the reading or the deleting fails. */
  lemma RefusedLeavesToken(w: World, who: Who, luck: Luck, g: Gaps)
    requires !Connect(w, who, luck, g).ok && w.token != Some(who.mine)
    requires Between(w, who, g, (a, b) => NotMine(who.mine, a, b)) && g.delete == g.load
    ensures Connect(w, who, luck, g).world.token == Some(who.mine)
       <==> Connect(w, who, luck, g).saved && g.load.token == Some(who.mine) && !(luck.load && luck.delete)
  {
    assert NotMine(who.mine, w, g.check) && NotMine(who.mine, g.check, g.link);
    assert NotMine(who.mine, Linked(g, who), g.save) && NotMine(who.mine, g.save, g.mark);
  }

  /** A live link has its token. */
  predicate LiveLinkHasToken(w: World) {
    w.link.Some? && w.link.value.live ==> w.token.Some?
  }

  /** Nothing happens between the steps. */
  ghost predicate Quiet(w: World, who: Who, luck: Luck, g: Gaps) {
    && Between(w, who, g, (a, b) => a == b)
  }

  /** Even alone, a connect can leave a live link without a token: the save and the marking both fail, or the second asking fails and the token is taken back. */
  lemma LinkWithoutToken(w: World, who: Who, luck: Luck, g: Gaps)
    requires who.links && who.asks && Quiet(w, who, luck, g) && LiveLinkHasToken(w)
    ensures !LiveLinkHasToken(Connect(w, who, luck, g).world) <==>
              && luck.begin && luck.check && CanLink(w, w.born, luck.link)
              && (if luck.save then !luck.recheck && luck.load && luck.delete else !luck.mark && w.token.None?)
  {
    var rel := (a: World, b: World) => a == b;
    assert rel(w, g.check) && rel(g.check, g.link) && rel(Linked(g, who), g.save) && rel(g.save, g.mark);
    assert rel(Saved(g, who), g.recheck) && rel(g.recheck, g.load) && rel(g.load, g.delete);
  }

  // ----- one step of a sign-in

  /** What a sign-in does next, or how it ended; `LeftBehind` is a refused one whose token could not be taken back. */
  datatype Phase =
    Asking | Linking | Saving | Marking | Rechecking | TakingBack | Deleting | Succeeded | Refused | LeftBehind

  datatype SignIn = SignIn(who: Who, began: Option<nat>, phase: Phase)

  predicate Over(a: SignIn) {
    a.phase.Succeeded? || a.phase.Refused? || a.phase.LeftBehind?
  }

  function Begin(who: Who, w: World, succeeds: bool): SignIn {
    if who.asks && !succeeds then SignIn(who, None, Refused)
    else SignIn(who, if who.asks then w.born else None, Asking)
  }

  function SignInStep(a: SignIn, w: World, succeeds: bool): (SignIn, World) {
    var who := a.who;
    match a.phase
    case Asking =>
      (a.(phase := if Changed(who, succeeds, w.born, a.began) then Refused else if who.links then Linking else Saving), w)
    case Linking =>
      if CanLink(w, a.began, succeeds) then (a.(phase := Saving), w.(link := Some(Link(who.mine, true)))) else (a.(phase := Refused), w)
    case Saving =>
      if succeeds then (a.(phase := Rechecking), w.(token := Some(who.mine)))
      else (a.(phase := if who.links then Marking else Refused), w)
    case Marking => (a.(phase := Refused), Marked(w, succeeds))
    case Rechecking => (a.(phase := if Changed(who, succeeds, w.born, a.began) then TakingBack else Succeeded), w)
    case TakingBack =>
      (a.(phase := if !succeeds then LeftBehind else if w.token == Some(who.mine) then Deleting else Refused), w)
    case Deleting =>
      if succeeds then (a.(phase := Refused), w.(token := None)) else (a.(phase := LeftBehind), w)
    case _ => (a, w)
  }

  /** The steps on the worlds they find, until the sign-in is over: how it stands, and the world its last step left. */
  function Play(a: SignIn, w: World, found: seq<World>, lucks: seq<bool>): (SignIn, World)
    requires |found| == |lucks|
    decreases |found|
  {
    if found == [] || Over(a) then (a, w)
    else
      var (a', w') := SignInStep(a, found[0], lucks[0]);
      Play(a', w', found[1..], lucks[1..])
  }

  const STEPS := 6

  /** The gaps and the luck of six steps, in the order a connect takes them. */
  function GapsOf(who: Who, found: seq<World>): Gaps
    requires |found| == STEPS
  {
    if who.links then Gaps(found[0], found[1], found[2], found[3], found[3], found[4], found[5])
    else Gaps(found[0], found[0], found[1], found[2], found[2], found[3], found[4])
  }

  function LuckOf(who: Who, begin: bool, lucks: seq<bool>): Luck
    requires |lucks| == STEPS
  {
    if who.links then Luck(begin, lucks[0], lucks[1], lucks[2], lucks[3], lucks[3], lucks[4], lucks[5])
    else Luck(begin, lucks[0], true, lucks[1], lucks[2], lucks[2], lucks[3], lucks[4])
  }

  lemma PlayStep(a: SignIn, w: World, found: seq<World>, lucks: seq<bool>, k: nat)
    requires |found| == |lucks| == STEPS && k < STEPS && !Over(a)
    ensures var (a', w') := SignInStep(a, found[k], lucks[k]);
            Play(a, w, found[k..], lucks[k..]) == Play(a', w', found[k + 1..], lucks[k + 1..])
  {
    hide SignInStep;
    assert found[k..][1..] == found[k + 1..] && lucks[k..][1..] == lucks[k + 1..];
  }

  lemma PlayOver(a: SignIn, w: World, found: seq<World>, lucks: seq<bool>)
    requires |found| == |lucks| && (Over(a) || found == [])
    ensures Play(a, w, found, lucks) == (a, w)
  {}

  /** The steps of a sign-in are a connect: with any worlds found and any luck, both leave the same world and end alike. */
  lemma PlayIsConnect(w: World, who: Who, begin: bool, found: seq<World>, lucks: seq<bool>)
    requires |found| == |lucks| == STEPS
    ensures var end := Connect(w, who, LuckOf(who, begin, lucks), GapsOf(who, found));
            var (a, left) := Play(Begin(who, w, begin), w, found, lucks);
            Over(a) && left == end.world && (a.phase.Succeeded? <==> end.ok)
  {
    hide Play;
    var a := Begin(who, w, begin);
    assert found[0..] == found && lucks[0..] == lucks;
    if Over(a) {
      PlayOver(a, w, found, lucks);
    } else {
      PlayStep(a, w, found, lucks, 0);
      var (a0, w0) := SignInStep(a, found[0], lucks[0]);
      if Over(a0) {
        PlayOver(a0, w0, found[1..], lucks[1..]);
      } else if who.links {
        PlayStep(a0, w0, found, lucks, 1);
        var (a1, w1) := SignInStep(a0, found[1], lucks[1]);
        if Over(a1) { PlayOver(a1, w1, found[2..], lucks[2..]); } else { PlayFromSave(a1, w1, found, lucks, 2); }
      } else {
        PlayFromSave(a0, w0, found, lucks, 1);
      }
    }
  }

  /** What the steps from the save on leave. */
  function FromSave(a: SignIn, found: seq<World>, lucks: seq<bool>, k: nat): (SignIn, World)
    requires |found| == |lucks| == STEPS && k + 3 < STEPS
  {
    if !lucks[k] then
      (if a.who.links then (a.(phase := Refused), Marked(found[k + 1], lucks[k + 1])) else (a.(phase := Refused), found[k]))
    else if !Changed(a.who, lucks[k + 1], found[k + 1].born, a.began) then (a.(phase := Succeeded), found[k + 1])
    else if !lucks[k + 2] then (a.(phase := LeftBehind), found[k + 2])
    else if found[k + 2].token != Some(a.who.mine) then (a.(phase := Refused), found[k + 2])
    else if lucks[k + 3] then (a.(phase := Refused), found[k + 3].(token := None))
    else (a.(phase := LeftBehind), found[k + 3])
  }

  lemma PlayFromSave(a: SignIn, w: World, found: seq<World>, lucks: seq<bool>, k: nat)
    requires |found| == |lucks| == STEPS && k + 3 < STEPS && a.phase.Saving?
    ensures Play(a, w, found[k..], lucks[k..]) == FromSave(a, found, lucks, k)
  {
    hide Play;
    PlayStep(a, w, found, lucks, k);
    var (a0, w0) := SignInStep(a, found[k], lucks[k]);
    if Over(a0) {
      PlayOver(a0, w0, found[k + 1..], lucks[k + 1..]);
    } else {
      PlayStep(a0, w0, found, lucks, k + 1);
      var (a1, w1) := SignInStep(a0, found[k + 1], lucks[k + 1]);
      if Over(a1) {
        PlayOver(a1, w1, found[k + 2..], lucks[k + 2..]);
      } else {
        PlayStep(a1, w1, found, lucks, k + 2);
        var (a2, w2) := SignInStep(a1, found[k + 2], lucks[k + 2]);
        if Over(a2) {
          PlayOver(a2, w2, found[k + 3..], lucks[k + 3..]);
        } else {
          PlayStep(a2, w2, found, lucks, k + 3);
          var (a3, w3) := SignInStep(a2, found[k + 3], lucks[k + 3]);
          PlayOver(a3, w3, found[k + 4..], lucks[k + 4..]);
        }
      }
    }
  }

  // ----- disconnecting

  /** Which calls of a disconnect succeed. */
  datatype Chance = Chance(link: bool, load: bool, unlink: bool, delete: bool, deleteFile: bool)

  /** The world each step of a disconnect finds. */
  datatype Stops = Stops(load: World, unlink: World, delete: World, file: World)

  /** What a disconnect does next, or how it ended. */
  datatype Turn = Loading(linked: bool) | Unlinking(token: bool) | Dropping | Filing | Stopped | Done

  predicate Ended(t: Turn) {
    t.Stopped? || t.Done?
  }

  function Leave(w: World, accounts: bool, succeeds: bool): Turn {
    if accounts && !succeeds then Stopped else Loading(accounts && w.link.Some?)
  }

  function DisconnectStep(t: Turn, w: World, succeeds: bool): (Turn, World) {
    match t
    case Loading(linked) =>
      (if !succeeds then Stopped else if linked then Unlinking(w.token.Some?) else if w.token.Some? then Dropping else Filing, w)
    case Unlinking(token) =>
      if succeeds then (if token then Dropping else Filing, w.(link := None)) else (Stopped, w)
    case Dropping => if succeeds then (Filing, w.(token := None)) else (Stopped, w)
    case Filing => if succeeds then (Done, w.(file := None)) else (Stopped, w)
    case _ => (t, w)
  }

  /** The world a disconnect leaves, wherever it ends or fails, and whether it got to the end. */
  function Disconnect(w: World, accounts: bool, c: Chance, g: Stops): (World, bool) {
    if accounts && !c.link then (w, false)
    else if !c.load then (g.load, false)
    else
      var linked, token := accounts && w.link.Some?, g.load.token.Some?;
      if linked && !c.unlink then (g.unlink, false)
      else if token && !c.delete then (g.delete, false)
      else if !c.deleteFile then (g.file, false)
      else (g.file.(file := None), true)
  }

  /** `PersonalApp::disconnect`: the row before the token; `left` holds the world each of its steps left. */
  method DisconnectPerson(stores: Stores, accounts: bool, c: Chance, g: Stops) returns (ok: bool, ghost left: seq<World>)
    modifies stores
    ensures (stores.Contents(), ok) == Disconnect(old(stores.Contents()), accounts, c, g)
    ensures left == LeftBy(old(stores.Contents()), accounts, c, g)
  {
    left := [];
    if accounts && !c.link { return false, left; }
    var linked := accounts && stores.link.Some?;
    stores.Others(g.load);
    left := [stores.Contents()];
    var held := stores.Load(c.load);
    if held.Err? { return false, left; }
    if linked {
      stores.Others(g.unlink);
      if c.unlink { stores.link := None; }
      left := left + [stores.Contents()];
      if !c.unlink { return false, left; }
    }
    if held.value.Some? {
      stores.Others(g.delete);
      var deleted := stores.Delete(c.delete);
      left := left + [stores.Contents()];
      if !deleted { return false, left; }
    }
    stores.Others(g.file);
    if c.deleteFile { stores.file := None; }
    left := left + [stores.Contents()];
    return c.deleteFile, left;
  }

  /** The world each step leaves, up to the one that fails: the link goes before the token, the token before the file. */
  function LeftBy(w: World, accounts: bool, c: Chance, g: Stops): seq<World> {
    if accounts && !c.link then []
    else if !c.load then [g.load]
    else
      var linked, token := accounts && w.link.Some?, g.load.token.Some?;
      [g.load]
      + (if !linked then [] else [if c.unlink then g.unlink.(link := None) else g.unlink])
      + (if (linked && !c.unlink) || !token then [] else [if c.delete then g.delete.(token := None) else g.delete])
      + (if (linked && !c.unlink) || (token && !c.delete) then [] else [if c.deleteFile then g.file.(file := None) else g.file])
  }

  /** The worlds the steps leave, until the disconnect is over, and how it stands then. */
  function PlayOut(t: Turn, found: seq<World>, lucks: seq<bool>): (Turn, seq<World>)
    requires |found| == |lucks|
    decreases |found|
  {
    if found == [] || Ended(t) then (t, [])
    else
      var (t', w') := DisconnectStep(t, found[0], lucks[0]);
      var (end, rest) := PlayOut(t', found[1..], lucks[1..]);
      (end, [w'] + rest)
  }

  const TURNS := 4

  /** The worlds of four steps, given to the calls a disconnect makes. */
  function StopsOf(linked: bool, found: seq<World>): Stops
    requires |found| == TURNS
  {
    var token, k := found[0].token.Some?, if linked then 2 else 1;
    Stops(found[0], found[1], found[k], found[if token then k + 1 else k])
  }

  function ChanceOf(link: bool, linked: bool, found: seq<World>, lucks: seq<bool>): Chance
    requires |found| == |lucks| == TURNS
  {
    var token, k := found[0].token.Some?, if linked then 2 else 1;
    Chance(link, lucks[0], lucks[1], lucks[k], lucks[if token then k + 1 else k])
  }

  lemma TurnStep(t: Turn, found: seq<World>, lucks: seq<bool>, k: nat)
    requires |found| == |lucks| == TURNS && k < TURNS && !Ended(t)
    ensures var (t', w') := DisconnectStep(t, found[k], lucks[k]);
            var (end, rest) := PlayOut(t', found[k + 1..], lucks[k + 1..]);
            PlayOut(t, found[k..], lucks[k..]) == (end, [w'] + rest)
  {
    hide DisconnectStep;
    assert found[k..][1..] == found[k + 1..] && lucks[k..][1..] == lucks[k + 1..];
  }

  lemma TurnOver(t: Turn, found: seq<World>, lucks: seq<bool>)
    requires |found| == |lucks| && Ended(t)
    ensures PlayOut(t, found, lucks) == (t, [])
  {}

  /** The steps of a disconnect are a disconnect: with any worlds found and any luck, both leave the same worlds and end alike. */
  lemma PlayIsDisconnect(w: World, accounts: bool, link: bool, found: seq<World>, lucks: seq<bool>)
    requires |found| == |lucks| == TURNS
    ensures var linked := accounts && w.link.Some?;
            var c, g := ChanceOf(link, linked, found, lucks), StopsOf(linked, found);
            var (end, left) := PlayOut(Leave(w, accounts, link), found, lucks);
            Ended(end) && left == LeftBy(w, accounts, c, g) && (end.Done? <==> Disconnect(w, accounts, c, g).1)
  {
    hide PlayOut;
    var t := Leave(w, accounts, link);
    assert found[0..] == found && lucks[0..] == lucks;
    if Ended(t) {
      TurnOver(t, found, lucks);
    } else {
      TurnStep(t, found, lucks, 0);
      var (t0, w0) := DisconnectStep(t, found[0], lucks[0]);
      if Ended(t0) {
        TurnOver(t0, found[1..], lucks[1..]);
      } else if t0.Unlinking? {
        TurnStep(t0, found, lucks, 1);
        var (t1, w1) := DisconnectStep(t0, found[1], lucks[1]);
        if Ended(t1) { TurnOver(t1, found[2..], lucks[2..]); } else { PlayFromDrop(t1, found, lucks, 2); }
      } else {
        PlayFromDrop(t0, found, lucks, 1);
      }
    }
  }

  /** What the steps from the token's deletion on leave. */
  function FromDrop(t: Turn, found: seq<World>, lucks: seq<bool>, k: nat): (Turn, seq<World>)
    requires |found| == |lucks| == TURNS && k + 1 < TURNS
  {
    var file := if t.Dropping? then k + 1 else k;
    var end, last := if lucks[file] then Done else Stopped, if lucks[file] then found[file].(file := None) else found[file];
    if t.Filing? then (end, [last])
    else if !lucks[k] then (Stopped, [found[k]])
    else (end, [found[k].(token := None), last])
  }

  lemma PlayFromDrop(t: Turn, found: seq<World>, lucks: seq<bool>, k: nat)
    requires |found| == |lucks| == TURNS && k + 1 < TURNS && (t.Dropping? || t.Filing?)
    ensures PlayOut(t, found[k..], lucks[k..]) == FromDrop(t, found, lucks, k)
  {
    hide PlayOut;
    TurnStep(t, found, lucks, k);
    var (t0, w0) := DisconnectStep(t, found[k], lucks[k]);
    if Ended(t0) {
      TurnOver(t0, found[k + 1..], lucks[k + 1..]);
      assert [w0] + [] == [w0];
    } else {
      TurnStep(t0, found, lucks, k + 1);
      var (t1, w1) := DisconnectStep(t0, found[k + 1], lucks[k + 1]);
      TurnOver(t1, found[k + 2..], lucks[k + 2..]);
      assert [w0] + ([w1] + []) == [w0, w1];
    }
  }

  /** A disconnect that failed anywhere and is run again, with nothing happening in between, leaves no link, no token and no file. */
  lemma DisconnectAgain(w: World, c: Chance, g: Stops, c': Chance, g': Stops)
    requires var left := Disconnect(w, true, c, g).0;
             Undisturbed(w, g) && Undisturbed(left, g') && Disconnect(left, true, c', g').1
    ensures Disconnect(Disconnect(w, true, c, g).0, true, c', g').0 == w.(link := None, token := None, file := None)
  {}

  /** Every step finds the world the step before it left. */
  predicate Undisturbed(w: World, g: Stops) {
    && g.load == w && g.unlink == w && g.delete == w.(link := None) && g.file == g.delete.(token := None)
  }
}
