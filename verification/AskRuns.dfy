/** The two throttled asks over the runs of the Stop hook: how far apart they are across sessions. */
module AskRuns {
  import opened Options
  import opened StopHook
  import opened StopRuns

  /** When the ask of this kind was last stamped. */
  function StampOf(m: Maintenance, ask: Stamp): Option<Time> {
    match ask
    case FirstSeen => m.firstSeen
    case Evolve => m.lastNudge
    case Reflect => m.lastReflect
  }

  /** Event `l` is the access by which a Stop loads the throttle record. */
  predicate LoadsAt(s: State, events: seq<Event>, l: int) {
    0 <= l < |events| && Mover(At(s, events, l), events[l]).Some? && Mover(At(s, events, l), events[l]).value.Loading?
  }

  function NowAt(s: State, events: seq<Event>, l: int): Time
    requires LoadsAt(s, events, l)
  {
    Mover(At(s, events, l), events[l]).value.call.now
  }

  /** The Stop that loads at event `l` makes the ask. */
  predicate AsksAt(s: State, events: seq<Event>, l: int, ask: Stamp) {
    && LoadsAt(s, events, l) && ask != FirstSeen
    && (var p := Mover(At(s, events, l), events[l]).value; Due(p.call, p.state, At(s, events, l).disk.maintenance, ask))
  }

  /** Event `w` writes the stamp of an ask. */
  predicate StampsAt(s: State, events: seq<Event>, w: int, ask: Stamp) {
    && 0 <= w < |events| && Mover(At(s, events, w), events[w]).Some?
    && (var p := Mover(At(s, events, w), events[w]).value; p.StampWrites? && p.stamp == ask && Writes(p.call, ask, p.found))
  }

  /** What event `e` writes to the record was read at event `r`. */
  predicate ReadFor(s: State, events: seq<Event>, r: int, e: int) {
    && 0 <= r < e < |events| && events[e].Go? && events[e].i < |At(s, events, e).procs|
    && match At(s, events, e).procs[events[e].i]
       case StampWrites(_, _, _, stamp, _) =>
         && events[r] == events[e] && events[e].i < |At(s, events, r).procs|
         && At(s, events, r).procs[events[e].i].StampReads? && At(s, events, r).procs[events[e].i].stamp == stamp
       case Recording(_, _) => StartsAt(s, events, r, events[e].i)
       case _ => false
  }

  // ----- what a stamp was read from

  lemma StampCame(p: Proc, disk: Disk)
    requires Access(p, disk).0.StampWrites?
    ensures p.StampReads? && Access(p, disk).0 == StampWrites(p.call, p.state, p.m, p.stamp, disk.maintenance)
  {
    hide SaidBy, Due;
  }

  lemma {:induction false} StampRead(s: State, events: seq<Event>, n: nat, i: nat) returns (r: nat)
    requires s.procs == [] && n <= |events| && i < |At(s, events, n).procs| && At(s, events, n).procs[i].StampWrites?
    ensures r < n && events[r] == Go(i) && i < |At(s, events, r).procs| && At(s, events, r).procs[i].StampReads?
    ensures At(s, events, r).procs[i].stamp == At(s, events, n).procs[i].stamp
    ensures At(s, events, r).disk.maintenance == At(s, events, n).procs[i].found
    decreases n
  {
    hide At, Step, Access;
    if n == 0 { AtStart(s, events); }
    var before, e := At(s, events, n - 1), events[n - 1];
    AtNext(s, events, n - 1);
    if i < |before.procs| {
      OwnStep(before, e, i);
      if e == Go(i) {
        StampCame(before.procs[i], before.disk);
        r := n - 1;
      } else {
        r := StampRead(s, events, n - 1, i);
      }
    } else {
      NewProc(before, e, i);
    }
  }

  /** A record that is written back was read by the same process. */
  lemma {:induction false} RecordRead(s: State, events: seq<Event>, e: nat) returns (r: nat)
    requires s.procs == [] && e < |events| && RecordWriter(At(s, events, e), events[e]).Some?
    ensures ReadFor(s, events, r, e)
    ensures var p := At(s, events, e).procs[events[e].i]; (p.StampWrites? || p.Recording?) && p.found == At(s, events, r).disk.maintenance
  {
    hide At, StartsAt;
    var i := events[e].i;
    if At(s, events, e).procs[i].StampWrites? {
      r := StampRead(s, events, e, i);
    } else {
      r := ReadAtStart(s, events, e, i);
    }
  }

  lemma LoadCame(p: Proc, disk: Disk)
    requires Access(p, disk).0.StampReads? || Access(p, disk).0.StampWrites?
    ensures (p.Loading? || p.StampReads? || p.StampWrites?) && Access(p, disk).0.call == p.call
  {
    hide SaidBy, Due;
  }

  /** A Stop at a stamp has loaded the record. */
  lemma {:induction false} LoadedBefore(s: State, events: seq<Event>, n: nat, i: nat) returns (l: nat)
    requires s.procs == [] && n <= |events| && i < |At(s, events, n).procs|
    requires At(s, events, n).procs[i].StampReads? || At(s, events, n).procs[i].StampWrites?
    ensures l < n && events[l] == Go(i) && LoadsAt(s, events, l) && NowAt(s, events, l) == At(s, events, n).procs[i].call.now
    decreases n
  {
    hide At, Step, Access;
    if n == 0 { AtStart(s, events); }
    var before, e := At(s, events, n - 1), events[n - 1];
    AtNext(s, events, n - 1);
    if i < |before.procs| {
      OwnStep(before, e, i);
      if e == Go(i) {
        LoadCame(before.procs[i], before.disk);
        l := n - 1;
        if before.procs[i].Loading? { return; }
      }
      l := LoadedBefore(s, events, n - 1, i);
    } else {
      NewProc(before, e, i);
    }
  }

  lemma SameNow(s: State, events: seq<Event>, l: nat, w: nat, ask: Stamp)
    requires s.procs == [] && LoadsAt(s, events, l) && StampsAt(s, events, w, ask) && events[l] == events[w]
    ensures NowAt(s, events, l) == At(s, events, w).procs[events[w].i].call.now
  {
    hide At, StartsAt;
    var r := DecidedAtStart(s, events, l, events[l].i);
    var r' := DecidedAtStart(s, events, w, events[l].i);
    StartsOnce(s, events, r, r', events[l].i);
  }

  // ----- what moves a stamp

  lemma WrittenStamp(p: Proc, ask: Stamp)
    requires WroteRecord(p).Some? && ask != FirstSeen
    ensures StampOf(WroteRecord(p).value, ask)
         == if p.StampWrites? && p.stamp == ask then Some(p.call.now) else if p.StampWrites? || p.Recording? then StampOf(p.found, ask) else None
  {}

  /** An event moves a stamp by making it, by writing back a record, or by losing the record. */
  lemma {:induction false} StampMoves(s: State, events: seq<Event>, n: nat, ask: Stamp) returns (r: nat)
    requires s.procs == [] && n < |events| && ask != FirstSeen
    ensures var before, after := StampOf(At(s, events, n).disk.maintenance, ask), StampOf(At(s, events, n + 1).disk.maintenance, ask);
            if events[n].LoseMaintenance? then after == None
            else if StampsAt(s, events, n, ask) then after == Some(At(s, events, n).procs[events[n].i].call.now)
            else if RecordWriter(At(s, events, n), events[n]).Some?
              then r < n && ReadFor(s, events, r, n) && after == StampOf(At(s, events, r).disk.maintenance, ask)
            else after == before
  {
    hide At, ReadFor, StampOf, Writes, Step, Stamped;
    var t := At(s, events, n);
    AtNext(s, events, n);
    RecordMoves(t, events[n]);
    r := 0;
    if RecordWriter(t, events[n]).Some? {
      WrittenStamp(t.procs[events[n].i], ask);
      r := RecordRead(s, events, n);
      ReadBefore(s, events, r, n);
    }
    FreshStamp(ask);
  }

  lemma ReadBefore(s: State, events: seq<Event>, r: nat, e: nat)
    requires ReadFor(s, events, r, e)
    ensures r < e
  {}

  lemma FreshStamp(ask: Stamp)
    ensures StampOf(FRESH_MACHINE, ask) == None
  {}

  lemma ReadIsNoStamp(s: State, events: seq<Event>, r: nat, e: nat, ask: Stamp)
    requires ReadFor(s, events, r, e)
    ensures !StampsAt(s, events, r, ask)
  {
    hide At;
  }

  /** An ask is made only a day after the stamp it finds. */
  lemma AskIsClear(s: State, events: seq<Event>, k: nat, ask: Stamp)
    requires AsksAt(s, events, k, ask)
    ensures Clear(StampOf(At(s, events, k).disk.maintenance, ask), NowAt(s, events, k), 24 * HOUR)
  {
    hide At, OpenCounts, WithRemote, RegisteredPending, Counted, Decide;
  }

  // ----- two asks of one kind

  /** Calls load the record in the order of their clocks. */
  ghost predicate ClockForward(s: State, events: seq<Event>) {
    forall a, b | LoadsAt(s, events, a) && LoadsAt(s, events, b) && a < b :: NowAt(s, events, a) <= NowAt(s, events, b)
  }

  /** Event `e` writes back a record read before event `w`. */
  ghost predicate WritesOld(s: State, events: seq<Event>, e: int, w: int) {
    0 <= e < |events| && RecordWriter(At(s, events, e), events[e]).Some? && exists r :: r < w && ReadFor(s, events, r, e)
  }

  /** Event `e` stamps the ask of a Stop that loaded the record before event `l`. */
  ghost predicate StampsLate(s: State, events: seq<Event>, e: int, l: int, ask: Stamp) {
    StampsAt(s, events, e, ask) && exists k :: k < l && LoadsAt(s, events, k) && events[k] == events[e]
  }

  /** Event `e` can put the stamp back behind the one made at `w` by the Stop that loaded at `l`. */
  ghost predicate SetsBack(s: State, events: seq<Event>, e: int, l: int, w: int, ask: Stamp) {
    0 <= e < |events| && (events[e].LoseMaintenance? || WritesOld(s, events, e, w) || StampsLate(s, events, e, l, ask))
  }

  predicate HeldFrom(m: Maintenance, ask: Stamp, now: Time) {
    StampOf(m, ask).Some? && StampOf(m, ask).value >= now
  }

  /** Only such an event takes the stamp back. */
  lemma {:induction false} HeldSince(s: State, events: seq<Event>, l: nat, w: nat, n: nat, ask: Stamp) returns (e: nat)
    requires s.procs == [] && ClockForward(s, events) && ask != FirstSeen
    requires LoadsAt(s, events, l) && l < w < n <= |events| && events[w] == events[l] && StampsAt(s, events, w, ask)
    requires !HeldFrom(At(s, events, n).disk.maintenance, ask, NowAt(s, events, l))
    ensures w < e < n && SetsBack(s, events, e, l, w, ask)
    decreases n
  {
    hide At, LoadsAt, StampsAt, ReadFor, StampOf, RecordWriter, ClockForward;
    e := n - 1;
    var r := StampMoves(s, events, e, ask);
    if StampsAt(s, events, e, ask) {
      StampIsGo(s, events, e, ask);
      var k := LoadedBefore(s, events, e, events[e].i);
      if e == w { SameNow(s, events, l, w, ask); } else if l <= k { ClockIs(s, events, l, k); }
    } else if events[e].LoseMaintenance? {
    } else if RecordWriter(At(s, events, e), events[e]).Some? {
      if w <= r {
        ReadIsNoStamp(s, events, r, e, ask);
        e := HeldSince(s, events, l, w, r, ask);
      }
    } else {
      e := HeldSince(s, events, l, w, e, ask);
    }
  }

  lemma StampIsGo(s: State, events: seq<Event>, e: nat, ask: Stamp)
    requires StampsAt(s, events, e, ask)
    ensures events[e].Go? && events[e].i < |At(s, events, e).procs| && At(s, events, e).procs[events[e].i].StampWrites?
    ensures !events[e].LoseMaintenance?
  {
    hide At;
  }

  lemma ClockIs(s: State, events: seq<Event>, a: nat, b: nat)
    requires ClockForward(s, events) && LoadsAt(s, events, a) && LoadsAt(s, events, b) && a <= b
    ensures NowAt(s, events, a) <= NowAt(s, events, b)
  {
    hide LoadsAt, NowAt;
  }

  /** Two asks of a kind less than a day apart, across all sessions: the later call loaded the record before the earlier one's stamp was written, or that stamp was put back in between. */
  lemma CloseAsks(s: State, events: seq<Event>, l: nat, w: nat, k: nat, ask: Stamp)
    requires s.procs == [] && ClockForward(s, events)
    requires AsksAt(s, events, l, ask) && l < w && StampsAt(s, events, w, ask) && events[w] == events[l]
    requires AsksAt(s, events, k, ask) && NowAt(s, events, k) - NowAt(s, events, l) < 24 * HOUR
    ensures k < w || exists e :: w < e < k && SetsBack(s, events, e, l, w, ask)
  {
    hide At, StampsAt, Due, SetsBack, StampOf, ClockForward;
    LoadIsNoStamp(s, events, k, w, ask);
    if k > w {
      AskIsClear(s, events, k, ask);
      var e := HeldSince(s, events, l, w, k, ask);
    }
  }

  lemma LoadIsNoStamp(s: State, events: seq<Event>, k: nat, w: nat, ask: Stamp)
    requires LoadsAt(s, events, k) && StampsAt(s, events, w, ask)
    ensures k != w && w < |events|
  {
    hide At;
  }

  /** When no stamp is put back, and the calls that loaded before the stamp did so within a day, two asks are less than a day apart exactly when the later call loaded before the stamp was written. */
  lemma AsksOverlap(s: State, events: seq<Event>, l: nat, w: nat, k: nat, ask: Stamp)
    requires s.procs == [] && ClockForward(s, events)
    requires AsksAt(s, events, l, ask) && l < w && StampsAt(s, events, w, ask) && events[w] == events[l]
    requires forall b | LoadsAt(s, events, b) && b < w :: NowAt(s, events, b) - NowAt(s, events, l) < 24 * HOUR
    requires AsksAt(s, events, k, ask) && forall e | w < e < k :: !SetsBack(s, events, e, l, w, ask)
    ensures NowAt(s, events, k) - NowAt(s, events, l) < 24 * HOUR <==> k < w
  {
    hide At, StampsAt, Due, SetsBack, ClockForward;
    if NowAt(s, events, k) - NowAt(s, events, l) < 24 * HOUR { CloseAsks(s, events, l, w, k, ask); }
  }

  /** Whatever the clocks, the next call that asks is a day after the stamp it found, as long as no other stamp, no older record and no loss came in between. */
  lemma NextAsk(s: State, events: seq<Event>, l: nat, w: nat, k: nat, ask: Stamp)
    requires s.procs == [] && AsksAt(s, events, l, ask) && w < k && StampsAt(s, events, w, ask) && events[w] == events[l]
    requires AsksAt(s, events, k, ask)
    requires forall e | w < e < k :: !events[e].LoseMaintenance? && !StampsAt(s, events, e, ask) && !WritesOld(s, events, e, w)
    ensures NowAt(s, events, k) - NowAt(s, events, l) >= 24 * HOUR
  {
    hide At, StampsAt, Due, StampOf, WritesOld;
    LoadIsNoStamp(s, events, k, w, ask);
    SameNow(s, events, l, w, ask);
    StampKept(s, events, w, k, ask);
    AskIsClear(s, events, k, ask);
  }

  lemma {:induction false} StampKept(s: State, events: seq<Event>, w: nat, n: nat, ask: Stamp)
    requires s.procs == [] && ask != FirstSeen && w < n <= |events| && StampsAt(s, events, w, ask)
    requires forall e | w < e < n :: !events[e].LoseMaintenance? && !StampsAt(s, events, e, ask) && !WritesOld(s, events, e, w)
    ensures events[w].Go? && events[w].i < |At(s, events, w).procs| && At(s, events, w).procs[events[w].i].StampWrites?
    ensures StampOf(At(s, events, n).disk.maintenance, ask) == Some(At(s, events, w).procs[events[w].i].call.now)
    decreases n
  {
    hide At, StampsAt, ReadFor, StampOf, RecordWriter;
    StampIsGo(s, events, w, ask);
    var r := StampMoves(s, events, n - 1, ask);
    if n - 1 > w {
      if RecordWriter(At(s, events, n - 1), events[n - 1]).Some? {
        ReadIsNoStamp(s, events, r, n - 1, ask);
        StampKept(s, events, w, r, ask);
      } else {
        StampKept(s, events, w, n - 1, ask);
      }
    }
  }

  /** Two sessions' Stops that both load the record before either stamps it both make the maintenance ask at the same instant, whatever lands. */
  lemma BothAsk(disk: Disk, call: Call, other: string)
    requires Said(disk, call).Some? && Said(disk, call).value.evolve.Some?
    requires other != call.input.session && ValidSessionId(other) && StateOf(disk, other) == StateOf(disk, call.input.session)
    ensures var second := call.(input := call.input.(session := other));
            var events := [Start(Stop(call)), Start(Stop(second)), Go(0), Go(1), Go(0), Go(1)];
            AsksAt(State(disk, []), events, 4, Evolve) && AsksAt(State(disk, []), events, 5, Evolve)
  {
    hide EvolveAsk, OpenCounts, WithRemote, RegisteredPending, ValidSessionId, HasDomains;
    var second := call.(input := call.input.(session := other));
    var events := [Start(Stop(call)), Start(Stop(second)), Go(0), Go(1), Go(0), Go(1)];
    var s := State(disk, []);
    var state := StateOf(disk, call.input.session);
    forall k | 0 <= k < 6 ensures At(s, events, k + 1) == Step(At(s, events, k), events[k]) { AtNext(s, events, k); }
    AtStart(s, events);
    hide At;
    assert At(s, events, 2) == State(disk, [Deciding(call, state), Deciding(second, state)]);
    assert At(s, events, 4).procs == [Loading(call, state), Loading(second, state)];
    assert At(s, events, 4).disk.maintenance == disk.maintenance;
    assert At(s, events, 5).procs[1] == Loading(second, state);
    assert At(s, events, 5).disk.maintenance == disk.maintenance;
  }

  // ----- the first week

  /** The record speaks of nothing before `since`. */
  predicate Young(m: Maintenance, since: Time) {
    (m.firstSeen.Some? ==> m.firstSeen.value >= since) && (m.lastRun.Some? ==> m.lastRun.value >= since)
  }

  /** No clock of the run is behind `since`: not a call's, and not a sweep's. */
  ghost predicate ClocksFrom(s: State, events: seq<Event>, since: Time) {
    && (forall l | LoadsAt(s, events, l) :: NowAt(s, events, l) >= since)
    && forall r | 0 <= r < |events| && events[r].Start? && events[r].job.Records? :: SweptFrom(events[r].job.record, since)
  }

  predicate SweptFrom(record: Record, since: Time) {
    match record
    case Swept(_, at) => at >= since
    case SweptAll(at) => at >= since
    case _ => true
  }

  lemma YoungWritten(p: Proc, since: Time)
    requires WroteRecord(p).Some? && (p.StampWrites? || p.Recording?) && Young(p.found, since)
    requires if p.StampWrites? then p.call.now >= since else SweptFrom(p.record, since)
    ensures Young(WroteRecord(p).value, since)
  {
    hide Without;
  }

  lemma RecordJob(p: Proc, job: Job, disk: Disk)
    requires p.Recording? && p == Begin(job, disk)
    ensures job == Records(p.record)
  {}

  /** Whatever is written back by whom, the record stays young. */
  lemma {:induction false} StaysYoung(s: State, events: seq<Event>, n: nat, since: Time)
    requires s.procs == [] && n <= |events| && Young(s.disk.maintenance, since) && ClocksFrom(s, events, since)
    ensures Young(At(s, events, n).disk.maintenance, since)
    decreases n
  {
    hide At, Step, Young, WroteRecord, LoadsAt, NowAt, SweptFrom;
    if n == 0 {
      AtStart(s, events);
    } else {
      var t, e := At(s, events, n - 1), events[n - 1];
      AtNext(s, events, n - 1);
      RecordMoves(t, e);
      StaysYoung(s, events, n - 1, since);
      FreshIsYoung(since);
      if RecordWriter(t, e).Some? {
        var i := e.i;
        var r := RecordRead(s, events, n - 1);
        ReadBefore(s, events, r, n - 1);
        StaysYoung(s, events, r, since);
        if t.procs[i].StampWrites? {
          var l := LoadedBefore(s, events, n - 1, i);
        } else {
          var k := ReadAtStart(s, events, n - 1, i);
          RecordJob(t.procs[i], events[k].job, At(s, events, k).disk);
        }
        YoungWritten(t.procs[i], since);
      }
    }
  }

  lemma FreshIsYoung(since: Time)
    ensures Young(FRESH_MACHINE, since)
  {}

  /** In a run that starts with a fresh record, a call asks for maintenance in the first seven days only because a domain is pending. */
  lemma QuietWeek(s: State, events: seq<Event>, l: nat, since: Time)
    requires s.procs == [] && s.disk.maintenance == FRESH_MACHINE && ClocksFrom(s, events, since)
    requires AsksAt(s, events, l, Evolve) && NowAt(s, events, l) < since + 7 * 24 * HOUR
    ensures SomePending(Mover(At(s, events, l), events[l]).value.call, At(s, events, l).disk.maintenance)
  {
    hide At, SaidBy, SomePending;
    FreshIsYoung(since);
    StaysYoung(s, events, l, since);
    var p := Mover(At(s, events, l), events[l]).value;
    AskIsDue(p.call, p.state, At(s, events, l).disk.maintenance);
  }
}
