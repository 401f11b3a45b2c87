/** Stops, resets, prompts and recorders of any number of processes, interleaved at every file access. */
module StopRuns {
  import opened Options
  import opened StopHook

  /** The files and every process ever started. */
  datatype State = State(disk: Disk, procs: seq<Proc>)

  /** A process starts with its first read, or makes its next access; a session's file or the throttle record is lost. */
  datatype Event = Start(job: Job) | Go(i: nat) | Lose(session: string) | LoseMaintenance

  function Step(s: State, e: Event): State {
    match e
    case Start(job) => s.(procs := s.procs + [Begin(job, s.disk)])
    case Go(i) =>
      if i >= |s.procs| then s
      else
        var (p, disk) := Access(s.procs[i], s.disk);
        State(disk, s.procs[i := p])
    case Lose(session) => s.(disk := s.disk.(sessions := s.disk.sessions - {session}))
    case LoseMaintenance => s.(disk := s.disk.(maintenance := FRESH_MACHINE))
  }

  /** The state before event `n`. */
  function At(s: State, events: seq<Event>, n: nat): State
    requires n <= |events|
  {
    if n == 0 then s else Step(At(s, events, n - 1), events[n - 1])
  }

  // ----- what an event writes

  /** The session file a process writes by its next access. */
  function Wrote(p: Proc): Option<(string, SessionState)> {
    match p
    case Deciding(call, state) =>
      if call.lands.state then Some((call.input.session, Stopped(state, Decide(call, state)))) else None
    case Resetting(session, file, lands) =>
      if lands && file.Some? && file.value.recalled != [] then Some((session, file.value.(recalled := []))) else None
    case Recalling(session, read, hits, lands) =>
      if lands && hits != [] then Some((session, read.(recalled := Newest(read.recalled + hits)))) else None
    case _ => None
  }

  /** The throttle record a process writes by its next access. */
  function WroteRecord(p: Proc): Option<Maintenance> {
    match p
    case StampWrites(call, _, _, stamp, found) => if Writes(call, stamp, found) then Some(Stamped(found, stamp, call.now)) else None
    case Recording(record, found) => if IsNew(found, record) then Some(Recorded(found, record)) else None
    case _ => None
  }

  lemma AccessWrites(p: Proc, disk: Disk)
    ensures Access(p, disk).1.sessions == if Wrote(p).Some? then disk.sessions[Wrote(p).value.0 := Wrote(p).value.1] else disk.sessions
    ensures Access(p, disk).1.maintenance == if WroteRecord(p).Some? then WroteRecord(p).value else disk.maintenance
  {
    hide Decide, Stopped, Newest, Writes, Stamped, Recorded, IsNew, NextStamp;
  }

  /** The process event `e` moves, if it moves one. */
  function Mover(s: State, e: Event): Option<Proc> {
    if e.Go? && e.i < |s.procs| then Some(s.procs[e.i]) else None
  }

  function Writer(s: State, e: Event, session: string): Option<SessionState> {
    if Mover(s, e).Some? && Wrote(Mover(s, e).value).Some? && Wrote(Mover(s, e).value).value.0 == session
    then Some(Wrote(Mover(s, e).value).value.1) else None
  }

  function RecordWriter(s: State, e: Event): Option<Maintenance> {
    if Mover(s, e).Some? then WroteRecord(Mover(s, e).value) else None
  }

  lemma FileMoves(s: State, e: Event, session: string)
    ensures StateOf(Step(s, e).disk, session)
         == if e == Lose(session) then FRESH else if Writer(s, e, session).Some? then Writer(s, e, session).value else StateOf(s.disk, session)
  {
    hide Access, Wrote, WroteRecord;
    if e.Go? && e.i < |s.procs| { AccessWrites(s.procs[e.i], s.disk); }
  }

  lemma RecordMoves(s: State, e: Event)
    ensures Step(s, e).disk.maintenance
         == if e.LoseMaintenance? then FRESH_MACHINE else if RecordWriter(s, e).Some? then RecordWriter(s, e).value else s.disk.maintenance
  {
    hide Access, Wrote, WroteRecord;
    if e.Go? && e.i < |s.procs| { AccessWrites(s.procs[e.i], s.disk); }
  }

  // ----- what a process has read

  lemma AtNext(s: State, events: seq<Event>, n: nat)
    requires n < |events|
    ensures At(s, events, n + 1) == Step(At(s, events, n), events[n])
  {}

  lemma AtStart(s: State, events: seq<Event>)
    ensures At(s, events, 0) == s
  {}

  lemma OwnStep(s: State, e: Event, i: nat)
    requires i < |s.procs|
    ensures i < |Step(s, e).procs| && Step(s, e).procs[i] == if e == Go(i) then Access(s.procs[i], s.disk).0 else s.procs[i]
  {
    hide Access;
  }

  lemma NewProc(s: State, e: Event, i: nat)
    requires |s.procs| <= i < |Step(s, e).procs|
    ensures i == |s.procs| && e.Start? && Step(s, e).procs[i] == Begin(e.job, s.disk)
  {
    hide Access;
  }

  /** Process `i` starts at event `r`. */
  predicate StartsAt(s: State, events: seq<Event>, r: nat, i: nat) {
    r < |events| && events[r].Start? && |At(s, events, r).procs| == i
  }

  /** The process still stands on its first read. */
  predicate Standing(p: Proc) {
    p.Deciding? || p.Resetting? || p.Recalling? || p.Recording?
  }

  lemma NeverStandingAgain(p: Proc, disk: Disk)
    ensures !Standing(Access(p, disk).0)
  {
    hide SaidBy, Due;
  }

  /** A process that stands on its first read made it when it started. */
  lemma {:induction false} ReadAtStart(s: State, events: seq<Event>, n: nat, i: nat) returns (r: nat)
    requires s.procs == [] && n <= |events| && i < |At(s, events, n).procs| && Standing(At(s, events, n).procs[i])
    ensures r < n && StartsAt(s, events, r, i) && events[r].Start?
    ensures At(s, events, n).procs[i] == Begin(events[r].job, At(s, events, r).disk)
    decreases n
  {
    hide At, Step, Standing, Begin;
    if n == 0 { AtStart(s, events); }
    var before, e := At(s, events, n - 1), events[n - 1];
    AtNext(s, events, n - 1);
    if i < |before.procs| {
      OwnStep(before, e, i);
      if e == Go(i) { NeverStandingAgain(before.procs[i], before.disk); }
      r := ReadAtStart(s, events, n - 1, i);
    } else {
      NewProc(before, e, i);
      r := n - 1;
    }
  }

  // ----- one nudge a session

  /** Event `e` takes the mark of the session away: its file is lost, or a hook writes a state without it. */
  predicate Unmarks(s: State, e: Event, session: string) {
    e == Lose(session) || (Writer(s, e, session).Some? && !Writer(s, e, session).value.nudged)
  }

  predicate Marks(s: State, e: Event, session: string) {
    Writer(s, e, session).Some? && Writer(s, e, session).value.nudged
  }

  predicate Marked(s: State, session: string) {
    StateOf(s.disk, session).nudged
  }

  lemma MarkMoves(s: State, e: Event, session: string)
    ensures Marked(Step(s, e), session) == (Marks(s, e, session) || (Marked(s, session) && !Unmarks(s, e, session)))
  {
    hide Wrote, Step, StateOf;
    FileMoves(s, e, session);
  }

  ghost predicate UnmarkedSince(s: State, events: seq<Event>, session: string, w: nat, n: nat)
    requires n <= |events|
  {
    exists e :: w < e < n && Unmarks(At(s, events, e), events[e], session)
      && forall k | e < k < n :: !Marks(At(s, events, k), events[k], session)
  }

  /** After a mark is written, the session is unmarked exactly when it was unmarked since and not marked after that. */
  lemma {:induction false} MarkIsLast(s: State, events: seq<Event>, session: string, w: nat, n: nat)
    requires w < n <= |events| && Marks(At(s, events, w), events[w], session)
    ensures !Marked(At(s, events, n), session) <==> UnmarkedSince(s, events, session, w, n)
    decreases n
  {
    hide At, Step, Marked, Marks, Unmarks;
    MarkMoves(At(s, events, n - 1), events[n - 1], session);
    AtNext(s, events, n - 1);
    if w < n - 1 {
      MarkIsLast(s, events, session, w, n - 1);
      NotBoth(At(s, events, n - 1), events[n - 1], session);
      if !Marked(At(s, events, n), session) && !Unmarks(At(s, events, n - 1), events[n - 1], session) {
        var e :| w < e < n - 1 && Unmarks(At(s, events, e), events[e], session)
          && forall k | e < k < n - 1 :: !Marks(At(s, events, k), events[k], session);
        assert forall k | e < k < n :: !Marks(At(s, events, k), events[k], session);
      }
    }
  }

  lemma NotBoth(s: State, e: Event, session: string)
    ensures !(Marks(s, e, session) && Unmarks(s, e, session))
  {}

  /** Event `e` writes back a state of the session read before event `w`. */
  ghost predicate WritesBack(s: State, events: seq<Event>, session: string, w: nat, e: nat)
    requires e < |events|
  {
    && Writer(At(s, events, e), events[e], session).Some?
    && exists r: nat :: r < w && StartsAt(s, events, r, events[e].i)
  }

  /** A hook that takes the mark away read the session's file unmarked. */
  lemma UnmarkerRead(p: Proc, job: Job, disk: Disk, session: string)
    requires p == Begin(job, disk) && Wrote(p).Some? && Wrote(p).value.0 == session && !Wrote(p).value.1.nudged
    ensures !StateOf(disk, session).nudged
  {
    hide Decide, Newest, Counted;
  }

  lemma WriterStands(s: State, e: Event, session: string)
    requires Writer(s, e, session).Some?
    ensures Standing(s.procs[e.i])
  {}

  /** The first event to take a written mark away is a loss of the file, or a write-back of a state read before the mark. */
  lemma {:induction false} FirstUnmark(s: State, events: seq<Event>, session: string, w: nat, n: nat) returns (e: nat)
    requires s.procs == [] && w < n <= |events| && Marks(At(s, events, w), events[w], session) && !Marked(At(s, events, n), session)
    ensures w < e < n && (events[e] == Lose(session) || WritesBack(s, events, session, w, e))
    decreases n
  {
    hide At, Step, Marked, Writer, StartsAt, Begin, Wrote, Standing;
    var before, last := At(s, events, n - 1), events[n - 1];
    MarkMoves(before, last, session);
    AtNext(s, events, n - 1);
    if w < n - 1 && !Marked(before, session) {
      e := FirstUnmark(s, events, session, w, n - 1);
    } else {
      NotBoth(before, last, session);
      e := n - 1;
      if last != Lose(session) {
        WriterStands(before, last, session);
        WriterMoves(before, last, session);
        var r := ReadAtStart(s, events, n - 1, last.i);
        UnmarkerRead(before.procs[last.i], events[r].job, At(s, events, r).disk, session);
        MarkedIs(At(s, events, r), session);
        StartIsNoWrite(s, events, session, w, r, last.i);
        if w < r { e := FirstUnmark(s, events, session, w, r); }
      }
    }
  }

  lemma MarkedIs(s: State, session: string)
    ensures Marked(s, session) == StateOf(s.disk, session).nudged
  {}

  lemma WriterMoves(s: State, e: Event, session: string)
    requires Writer(s, e, session).Some?
    ensures e.Go? && e.i < |s.procs| && Wrote(s.procs[e.i]) == Some((session, Writer(s, e, session).value))
  {
    hide Wrote;
  }

  lemma StartIsNoWrite(s: State, events: seq<Event>, session: string, w: nat, r: nat, i: nat)
    requires w < |events| && Marks(At(s, events, w), events[w], session) && StartsAt(s, events, r, i)
    ensures w != r
  {
    hide At;
  }

  /** Event `e` is the write of a Stop of the session that has decided to nudge. */
  predicate Nudges(s: State, e: Event, session: string) {
    && Mover(s, e).Some? && Mover(s, e).value.Deciding? && Mover(s, e).value.call.input.session == session
    && Decide(Mover(s, e).value.call, Mover(s, e).value.state)
  }

  // ----- what a Stop decided by

  predicate IsStop(p: Proc) {
    p.Deciding? || p.Loading? || p.StampReads? || p.StampWrites? || p.Spoken?
  }

  /** The process stands for this call and this file, and has spoken exactly when they earn a nudge. */
  predicate DecidesBy(p: Proc, call: Call, state: SessionState) {
    && IsStop(p) && p.call == call
    && (if p.Spoken? then p.said.Some? <==> Counted(call) && Decide(call, state) else p.state == state && Counted(call))
  }

  lemma DecidesStep(p: Proc, disk: Disk, call: Call, state: SessionState)
    requires DecidesBy(p, call, state)
    ensures DecidesBy(Access(p, disk).0, call, state)
  {
    hide Counted, Decide, EvolveAsk, OpenCounts, WithRemote, RegisteredPending, Due;
  }

  lemma DecidesFirst(call: Call, disk: Disk)
    ensures DecidesBy(Begin(Stop(call), disk), call, StateOf(disk, call.input.session))
  {
    hide Counted, Decide;
  }

  lemma StopIsStop(p: Proc, disk: Disk)
    requires IsStop(Access(p, disk).0)
    ensures IsStop(p)
  {}

  lemma StopBegins(job: Job, disk: Disk)
    requires IsStop(Begin(job, disk))
    ensures job.Stop?
  {}

  /** Every Stop decides by the file as it was when the call started. */
  lemma {:induction false} DecidedAtStart(s: State, events: seq<Event>, n: nat, i: nat) returns (r: nat)
    requires s.procs == [] && n <= |events| && i < |At(s, events, n).procs| && IsStop(At(s, events, n).procs[i])
    ensures r < n && StartsAt(s, events, r, i) && events[r] == Start(Stop(At(s, events, n).procs[i].call))
    ensures var p := At(s, events, n).procs[i]; DecidesBy(p, p.call, StateOf(At(s, events, r).disk, p.call.input.session))
    decreases n
  {
    hide At, Step, DecidesBy, Begin, Access, StateOf;
    if n == 0 { AtStart(s, events); }
    var before, e := At(s, events, n - 1), events[n - 1];
    AtNext(s, events, n - 1);
    if i < |before.procs| {
      OwnStep(before, e, i);
      if e == Go(i) { StopIsStop(before.procs[i], before.disk); }
      r := DecidedAtStart(s, events, n - 1, i);
      var call := before.procs[i].call;
      var state := StateOf(At(s, events, r).disk, call.input.session);
      DecidesStep(before.procs[i], before.disk, call, state);
      SameCall(Access(before.procs[i], before.disk).0, call, state);
    } else {
      NewProc(before, e, i);
      StopBegins(e.job, before.disk);
      r := n - 1;
      DecidesFirst(e.job.call, before.disk);
      SameCall(Begin(e.job, before.disk), e.job.call, StateOf(before.disk, e.job.call.input.session));
    }
  }

  lemma SameCall(p: Proc, call: Call, state: SessionState)
    requires DecidesBy(p, call, state)
    ensures IsStop(p) && p.call == call
  {}

  /** The process has written its session's file, or spoken. */
  predicate HasWritten(p: Proc) {
    p.Loading? || p.StampReads? || p.StampWrites? || (p.Spoken? && p.said.Some?)
  }

  lemma WritesFirst(p: Proc, disk: Disk)
    requires HasWritten(Access(p, disk).0)
    ensures (HasWritten(p) || p.Deciding?) && p.call == Access(p, disk).0.call
  {}

  /** A Stop that got past its decision made the write of the session's file on the way. */
  lemma {:induction false} WroteBefore(s: State, events: seq<Event>, n: nat, i: nat) returns (w: nat)
    requires s.procs == [] && n <= |events| && i < |At(s, events, n).procs| && HasWritten(At(s, events, n).procs[i])
    ensures w < n && events[w] == Go(i) && i < |At(s, events, w).procs| && At(s, events, w).procs[i].Deciding?
    ensures At(s, events, w).procs[i].call == At(s, events, n).procs[i].call
    decreases n
  {
    hide At, Step, Access;
    if n == 0 { AtStart(s, events); }
    var before, e := At(s, events, n - 1), events[n - 1];
    AtNext(s, events, n - 1);
    if i < |before.procs| {
      OwnStep(before, e, i);
      if e == Go(i) {
        WritesFirst(before.procs[i], before.disk);
        w := n - 1;
        if before.procs[i].Deciding? { return; }
      }
      w := WroteBefore(s, events, n - 1, i);
    } else {
      NewProc(before, e, i);
    }
  }

  /** Process `i` has nudged in the session. */
  predicate Heard(s: State, i: nat, session: string) {
    i < |s.procs| && s.procs[i].Spoken? && s.procs[i].said.Some? && s.procs[i].call.input.session == session
  }

  /** The write by which a nudge is marked, and the read it was decided by. */
  lemma {:induction false} HeardBy(s: State, events: seq<Event>, n: nat, i: nat, session: string) returns (r: nat, w: nat)
    requires s.procs == [] && n <= |events| && Heard(At(s, events, n), i, session)
    ensures r < w < n && StartsAt(s, events, r, i) && !Marked(At(s, events, r), session)
    ensures events[w] == Go(i) && Nudges(At(s, events, w), events[w], session)
  {
    hide At, Counted, StartsAt;
    var call := At(s, events, n).procs[i].call;
    r := DecidedAtStart(s, events, n, i);
    w := WroteBefore(s, events, n, i);
    var r' := ReadAtStart(s, events, w, i);
    StartsOnce(s, events, r, r', i);
  }

  lemma StartsOnce(s: State, events: seq<Event>, r: nat, r': nat, i: nat)
    requires StartsAt(s, events, r, i) && StartsAt(s, events, r', i)
    ensures r == r'
  {
    hide At;
    if r < r' { ProcsGrow(s, events, r, r'); } else if r' < r { ProcsGrow(s, events, r', r); }
  }

  lemma {:induction false} ProcsGrow(s: State, events: seq<Event>, r: nat, n: nat)
    requires r < n <= |events| && events[r].Start?
    ensures |At(s, events, r).procs| < |At(s, events, n).procs|
    decreases n
  {
    hide At, Access;
    AtNext(s, events, n - 1);
    if r < n - 1 { ProcsGrow(s, events, r, n - 1); }
  }

  lemma NudgeMarks(s: State, e: Event, session: string)
    requires Nudges(s, e, session) && Writer(s, e, session).Some?
    ensures Marks(s, e, session)
  {
    hide Decide;
  }

  /** In any interleaving a session hears two nudges only when the call that marked last had read before the other's mark was written, or that mark did not land, was lost, or was undone by a write-back of a state read before it. */
  lemma {:induction false} NudgedOnce(s: State, events: seq<Event>, n: nat, i: nat, j: nat, session: string) returns (w: nat, v: nat, r: nat)
    requires s.procs == [] && n <= |events| && i != j && Heard(At(s, events, n), i, session) && Heard(At(s, events, n), j, session)
    ensures w < v < n && {events[w], events[v]} == {Go(i), Go(j)}
    ensures Nudges(At(s, events, w), events[w], session) && Nudges(At(s, events, v), events[v], session)
    ensures r < v && StartsAt(s, events, r, events[v].i)
    ensures r < w || Writer(At(s, events, w), events[w], session).None?
         || exists e :: w < e < r && (events[e] == Lose(session) || WritesBack(s, events, session, w, e))
  {
    hide At, Nudges, StartsAt, Marked, Writer, Heard, WritesBack;
    var ri, wi := HeardBy(s, events, n, i, session);
    var rj, wj := HeardBy(s, events, n, j, session);
    if wi < wj { w, v, r := wi, wj, rj; } else { w, v, r := wj, wi, ri; }
    if r >= w && Writer(At(s, events, w), events[w], session).Some? {
      NudgeMarks(At(s, events, w), events[w], session);
      StartIsNoWrite(s, events, session, w, r, events[v].i);
      var e := FirstUnmark(s, events, session, w, r);
    }
  }

  /** A counted Stop with open gates and a substantial transcript, after a mark was written, nudges again exactly when the mark was taken away since and not written again. */
  lemma {:induction false} NudgesAgainWhen(s: State, events: seq<Event>, session: string, w: nat, n: nat, i: nat) returns (r: nat)
    requires s.procs == [] && n <= |events| && i < |At(s, events, n).procs| && At(s, events, n).procs[i].Spoken?
    requires var call := At(s, events, n).procs[i].call;
             Counted(call) && Open(call) && call.input.transcript.Substantial? && call.input.session == session
    requires w < |events| && Marks(At(s, events, w), events[w], session)
    ensures r < n && StartsAt(s, events, r, i)
    ensures w < r ==> (At(s, events, n).procs[i].said.Some? <==> UnmarkedSince(s, events, session, w, r))
  {
    hide At, StartsAt, Marks, UnmarkedSince, ValidSessionId;
    r := DecidedAtStart(s, events, n, i);
    if w < r { MarkIsLast(s, events, session, w, r); }
  }

  /** A reset that read the file before a nudge and writes it after takes the mark away, and the next Stop nudges again: every write lands and nothing is lost. */
  lemma ResetUndoesMark(disk: Disk, call: Call)
    requires Counted(call) && Open(call) && call.input.transcript.Substantial? && call.lands.state
    requires var state := StateOf(disk, call.input.session); call.input.session in disk.sessions && !state.nudged && state.recalled != []
    ensures var events := [Start(Reset(call.input.session, true)), Start(Stop(call)), Go(1), Go(0), Start(Stop(call))];
            var s := State(disk, []);
            && Nudges(At(s, events, 2), events[2], call.input.session) && Marked(At(s, events, 3), call.input.session)
            && !Marked(At(s, events, 4), call.input.session)
            && (var p := At(s, events, 5).procs[2]; p.Deciding? && Decide(p.call, p.state))
  {
    hide ValidSessionId, HasDomains;
    var session := call.input.session;
    var events := [Start(Reset(session, true)), Start(Stop(call)), Go(1), Go(0), Start(Stop(call))];
    var s := State(disk, []);
    forall k | 0 <= k < 5 ensures At(s, events, k + 1) == Step(At(s, events, k), events[k]) { AtNext(s, events, k); }
    AtStart(s, events);
    hide At;
    assert At(s, events, 2).procs == [Begin(Reset(session, true), disk), Begin(Stop(call), disk)];
    assert At(s, events, 2).disk == disk;
    assert At(s, events, 3).procs[0] == Resetting(session, Some(disk.sessions[session]), true);
  }

  // ----- the third Stop

  /** Event `e` is the write of a counted Stop of the session. */
  predicate StopWrites(s: State, e: Event, session: string) {
    Mover(s, e).Some? && Mover(s, e).value.Deciding? && Mover(s, e).value.call.input.session == session
  }

  /** The Stops of the session that wrote its file before event `n`. */
  function StopsBefore(s: State, events: seq<Event>, session: string, n: nat): nat
    requires n <= |events|
  {
    if n == 0 then 0
    else StopsBefore(s, events, session, n - 1) + (if StopWrites(At(s, events, n - 1), events[n - 1], session) then 1 else 0)
  }

  /** The session's file is not lost, and a hook that writes it finds it as it read it; a Stop's write lands. */
  predicate Keeps(s: State, e: Event, session: string) {
    && e != Lose(session)
    && (Mover(s, e).Some? ==>
          match Mover(s, e).value
          case Deciding(call, state) => call.input.session == session ==> call.lands.state && state == StateOf(s.disk, session)
          case Resetting(of, file, _) => of == session && file.Some? ==> file.value == StateOf(s.disk, session)
          case Recalling(of, read, _, _) => of == session ==> read == StateOf(s.disk, session)
          case _ => true)
  }

  ghost predicate Kept(s: State, events: seq<Event>, session: string) {
    forall k | 0 <= k < |events| :: Keeps(At(s, events, k), events[k], session)
  }

  function Capped(n: nat): nat {
    if n >= U32_MAX then U32_MAX else n
  }

  lemma StateStep(s: State, e: Event, session: string)
    requires Keeps(s, e, session)
    ensures var before, after := StateOf(s.disk, session), StateOf(Step(s, e).disk, session);
            if StopWrites(s, e, session)
            then after.stops == (if before.stops >= U32_MAX then U32_MAX else before.stops + 1)
                 && after.nudged == (before.nudged || Nudges(s, e, session))
            else after.stops == before.stops && after.nudged == before.nudged
  {
    FileMoves(s, e, session);
    hide Step, StateOf, Decide, Newest;
  }

  ghost predicate NudgedBefore(s: State, events: seq<Event>, session: string, n: nat)
    requires n <= |events|
  {
    exists k :: 0 <= k < n && Nudges(At(s, events, k), events[k], session)
  }

  lemma NudgedNext(s: State, events: seq<Event>, session: string, n: nat)
    requires n < |events|
    ensures NudgedBefore(s, events, session, n + 1)
       <==> NudgedBefore(s, events, session, n) || Nudges(At(s, events, n), events[n], session)
  {
    hide Nudges, At;
  }

  lemma NudgeIsStop(s: State, e: Event, session: string)
    requires Nudges(s, e, session)
    ensures StopWrites(s, e, session)
  {}

  /** The file says how many Stops were counted and whether one nudged; resets and prompts leave both alone. */
  lemma {:induction false} FileSays(s: State, events: seq<Event>, session: string, n: nat)
    requires n <= |events| && Kept(s, events, session) && session !in s.disk.sessions
    ensures var state := StateOf(At(s, events, n).disk, session);
            state.stops == Capped(StopsBefore(s, events, session, n)) && (state.nudged <==> NudgedBefore(s, events, session, n))
    decreases n
  {
    hide At, Step, Nudges, StopWrites, Keeps, NudgedBefore;
    if n == 0 {
      AtStart(s, events);
      NoneNudged(s, events, session);
    } else {
      FileSays(s, events, session, n - 1);
      AtNext(s, events, n - 1);
      StateStep(At(s, events, n - 1), events[n - 1], session);
      NudgedNext(s, events, session, n - 1);
      if Nudges(At(s, events, n - 1), events[n - 1], session) { NudgeIsStop(At(s, events, n - 1), events[n - 1], session); }
    }
  }

  lemma NoneNudged(s: State, events: seq<Event>, session: string)
    ensures !NudgedBefore(s, events, session, 0)
  {}

  function StopAt(s: State, e: Event, session: string): Call
    requires StopWrites(s, e, session)
  {
    Mover(s, e).value.call
  }

  /** A counted Stop nudges exactly when the gates are open, the session was not nudged yet, and the transcript is substantial, or unreadable at the third Stop or later. */
  lemma NudgesWhen(s: State, events: seq<Event>, session: string, n: nat)
    requires s.procs == [] && n < |events| && Kept(s, events, session) && session !in s.disk.sessions
    requires StopWrites(At(s, events, n), events[n], session)
    ensures var call := StopAt(At(s, events, n), events[n], session);
            Nudges(At(s, events, n), events[n], session) <==>
              && Open(call) && !NudgedBefore(s, events, session, n)
              && (call.input.transcript.Substantial?
                  || (call.input.transcript.Unavailable? && StopsBefore(s, events, session, n) >= FALLBACK_STOPS - 1))
  {
    hide At, StateOf, NudgedBefore, StopsBefore, ValidSessionId, StartsAt;
    FileSays(s, events, session, n);
    var t := At(s, events, n);
    assert Keeps(t, events[n], session);
    var r := DecidedAtStart(s, events, n, events[n].i);
  }

  /** With the gates open and no transcript, the nudge comes at exactly the third counted Stop. */
  lemma {:induction false} ThirdStop(s: State, events: seq<Event>, session: string, n: nat)
    requires s.procs == [] && n < |events| && Kept(s, events, session) && session !in s.disk.sessions
    requires forall k | 0 <= k < |events| && StopWrites(At(s, events, k), events[k], session) ::
               var call := StopAt(At(s, events, k), events[k], session); Open(call) && call.input.transcript.Unavailable?
    requires StopWrites(At(s, events, n), events[n], session)
    ensures Nudges(At(s, events, n), events[n], session) <==> StopsBefore(s, events, session, n) == FALLBACK_STOPS - 1
    decreases n
  {
    hide At, Nudges, Kept, StopWrites, Open;
    NudgesWhen(s, events, session, n);
    var c := StopsBefore(s, events, session, n);
    if c > FALLBACK_STOPS - 1 {
      var k := StopNumber(s, events, session, n, FALLBACK_STOPS - 1);
      ThirdStop(s, events, session, k);
    } else if k :| 0 <= k < n && Nudges(At(s, events, k), events[k], session) {
      NudgeIsStop(At(s, events, k), events[k], session);
      ThirdStop(s, events, session, k);
      StopsGrow(s, events, session, k, n);
    }
  }

  lemma {:induction false} StopNumber(s: State, events: seq<Event>, session: string, n: nat, c: nat) returns (k: nat)
    requires n <= |events| && c < StopsBefore(s, events, session, n)
    ensures k < n && StopWrites(At(s, events, k), events[k], session) && StopsBefore(s, events, session, k) == c
    decreases n
  {
    hide StopWrites, At;
    if StopsBefore(s, events, session, n - 1) == c {
      k := n - 1;
    } else {
      k := StopNumber(s, events, session, n - 1, c);
    }
  }

  lemma {:induction false} StopsGrow(s: State, events: seq<Event>, session: string, k: nat, n: nat)
    requires k < n <= |events| && StopWrites(At(s, events, k), events[k], session)
    ensures StopsBefore(s, events, session, k) < StopsBefore(s, events, session, n)
    decreases n
  {
    hide StopWrites, At;
    if n > k + 1 { StopsGrow(s, events, session, k, n - 1); }
  }
}
