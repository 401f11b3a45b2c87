/** The Stop hook: one nudge a session, and what rides along with it. */
module StopHook {
  import opened Options
  import opened Text

  /** An instant or a span, in nanoseconds. */
  type Time = int

  const HOUR: Time := 3_600_000_000_000
  const EVOLVE_RUN_INTERVAL: Time := 7 * 24 * HOUR
  const EVOLVE_NUDGE_COOLDOWN: Time := 24 * HOUR
  const REFLECT_NUDGE_COOLDOWN: Time := 24 * HOUR
  const FALLBACK_STOPS := 3
  const RECALLED_MAX := 200
  const U32_MAX := 0xFFFF_FFFF
  const SCHEME := "crystalline://"

  datatype Transcript = Unavailable | Insufficient | Substantial

  datatype SessionState = SessionState(stops: nat, nudged: bool, recalled: seq<string>)

  /** The machine's throttle record. */
  datatype Maintenance = Maintenance(
    firstSeen: Option<Time>, lastRun: Option<Time>, lastNudge: Option<Time>, lastReflect: Option<Time>,
    pending: seq<string>, reflectOpen: map<string, nat>)

  const FRESH := SessionState(0, false, [])
  const FRESH_MACHINE := Maintenance(None, None, None, None, [], map[])

  datatype StopInput = StopInput(session: string, transcript: Transcript, active: bool, event: Option<string>)

  /** What the call reads besides the state files. `shown` are the registered domains no source hides, `writable` those it could write to. */
  datatype Facts = Facts(
    loaded: bool, mounted: bool, shown: set<string>, writable: seq<string>, readOnly: bool,
    remotePending: seq<string>, remoteReflect: map<string, nat>, share: Option<string>)

  /** Which of the call's best-effort writes land. */
  datatype Lands = Lands(state: bool, firstSeen: bool, nudge: bool, reflect: bool)

  datatype Call = Call(input: StopInput, facts: Facts, now: Time, lands: Lands)

  /** What a nudge says beside the capture paragraph. */
  datatype Nudge = Nudge(evolve: Option<seq<string>>, share: Option<string>, reflect: Option<map<string, nat>>)

  // ----- the decisions

  function Lower(c: char): char {
    if 'A' <= c <= 'Z' then c - 'A' + 'a' else c
  }

  predicate IsIdChar(c: char) {
    'a' <= c <= 'z' || 'A' <= c <= 'Z' || '0' <= c <= '9' || c == '-' || c == '_'
  }

  const MAINTENANCE := "maintenance"

  /** A session id that can be a file name and is not the throttle record's. */
  predicate ValidSessionId(id: string) {
    && 0 < |id| <= 128 && (forall c | c in id :: IsIdChar(c))
    && !(|id| == |MAINTENANCE| && forall i | 0 <= i < |id| :: Lower(id[i]) == MAINTENANCE[i])
  }

  /** The payload is a Stop of this session, not a continuation, and the configuration could be read. */
  predicate Counted(call: Call) {
    && (call.input.event.None? || call.input.event.value == "Stop") && !call.input.active
    && ValidSessionId(call.input.session) && call.facts.loaded
  }

  predicate HasDomains(facts: Facts) {
    facts.mounted || facts.writable != []
  }

  /** Whether a call may speak at all. */
  predicate Open(call: Call) {
    HasDomains(call.facts) && !call.facts.readOnly
  }

  /** Whether the call earns a nudge. */
  predicate Decide(call: Call, state: SessionState) {
    if call.input.event.Some? && call.input.event.value != "Stop" then false
    else if call.input.active then false
    else if !HasDomains(call.facts) || call.facts.readOnly then false
    else if state.nudged then false
    else
      match call.input.transcript
      case Substantial => true
      case Insufficient => false
      case Unavailable => state.stops >= FALLBACK_STOPS - 1
  }

  function Stopped(state: SessionState, nudge: bool): SessionState {
    SessionState(if state.stops >= U32_MAX then U32_MAX else state.stops + 1, state.nudged || nudge, state.recalled)
  }

  function RegisteredPending(pending: seq<string>, registered: seq<string>): seq<string> {
    if pending == [] then []
    else (if pending[0] in registered then [pending[0]] else []) + RegisteredPending(pending[1..], registered)
  }

  function WithRemote(pending: seq<string>, remote: seq<string>): seq<string>
    decreases |remote|
  {
    if remote == [] then pending
    else WithRemote(if remote[0] in pending then pending else pending + [remote[0]], remote[1..])
  }

  predicate Clear(last: Option<Time>, now: Time, cooldown: Time) {
    last.None? || now - last.value >= cooldown
  }

  predicate WeeklyDue(m: Maintenance, now: Time) {
    match m.lastRun
    case Some(ran) => now - ran >= EVOLVE_RUN_INTERVAL
    case None => m.firstSeen.Some? && now - m.firstSeen.value >= EVOLVE_RUN_INTERVAL
  }

  /** The maintenance ask, with the domains it names. */
  function EvolveAsk(m: Maintenance, now: Time): Option<seq<string>> {
    if !Clear(m.lastNudge, now, EVOLVE_NUDGE_COOLDOWN) then None
    else if WeeklyDue(m, now) || m.pending != [] then Some(m.pending)
    else None
  }

  predicate ReflectAsk(m: Maintenance, now: Time) {
    Clear(m.lastReflect, now, REFLECT_NUDGE_COOLDOWN)
  }

  /** The domain of a recalled address. */
  function DomainOf(address: string): Option<string> {
    if SCHEME <= address then
      var domain := Split(address[|SCHEME|..], '/')[0];
      if domain == "" then None else Some(domain)
    else None
  }

  function SessionDomains(state: SessionState): set<string> {
    set address | address in state.recalled && DomainOf(address).Some? :: DomainOf(address).value
  }

  /** The open counts the reflect ask speaks of: this machine's shown domains and the sources', narrowed to the session's. */
  function OpenCounts(m: Maintenance, facts: Facts, state: SessionState): map<string, nat> {
    var session := SessionDomains(state);
    var counts := (map d | d in m.reflectOpen && d in facts.shown :: m.reflectOpen[d]) + facts.remoteReflect;
    map d | d in counts && counts[d] > 0 && (session == {} || d in session) :: counts[d]
  }

  // ----- the files

  datatype Disk = Disk(sessions: map<string, SessionState>, maintenance: Maintenance)

  function StateOf(disk: Disk, session: string): SessionState {
    if session in disk.sessions then disk.sessions[session] else FRESH
  }

  function Seen(m: Maintenance, now: Time): Maintenance {
    if m.firstSeen.None? then m.(firstSeen := Some(now)) else m
  }

  /** What the call says, from the session file and the throttle record as it read them: the ride-alongs see the record with the clock started. */
  function SaidBy(call: Call, state: SessionState, loaded: Maintenance): Option<Nudge> {
    if !Counted(call) || !Decide(call, state) then None
    else
      var m := Seen(loaded, call.now);
      Some(Nudge(
        EvolveAsk(m.(pending := WithRemote(RegisteredPending(m.pending, call.facts.writable), call.facts.remotePending)), call.now),
        call.facts.share,
        var counts := OpenCounts(m, call.facts, state);
        if ReflectAsk(m, call.now) && counts != map[] then Some(counts) else None))
  }

  // ----- the hooks and the recorders, one file access at a time

  /** The stamps of a call, in the order it makes them. */
  datatype Stamp = FirstSeen | Evolve | Reflect

  function Stamped(m: Maintenance, stamp: Stamp, now: Time): Maintenance {
    match stamp
    case FirstSeen => Seen(m, now)
    case Evolve => m.(lastNudge := Some(now))
    case Reflect => m.(lastReflect := Some(now))
  }

  predicate StampLands(call: Call, stamp: Stamp) {
    match stamp
    case FirstSeen => call.lands.firstSeen
    case Evolve => call.lands.nudge
    case Reflect => call.lands.reflect
  }

  /** The stamp is written: it lands, and the clock is started only once. */
  predicate Writes(call: Call, stamp: Stamp, found: Maintenance) {
    StampLands(call, stamp) && (stamp.FirstSeen? ==> found.firstSeen.None?)
  }

  /** What the daemon records; a receipt touches no field a hook reads. */
  datatype Record = Pending(domain: string) | Swept(domains: set<string>, at: Time) | SweptAll(at: Time) | Counts(open: map<string, nat>) | Receipt

  function Without(pending: seq<string>, domains: set<string>): seq<string> {
    if pending == [] then []
    else (if pending[0] in domains then [] else [pending[0]]) + Without(pending[1..], domains)
  }

  function Recorded(m: Maintenance, record: Record): Maintenance {
    match record
    case Pending(d) => m.(pending := if d in m.pending then m.pending else m.pending + [d])
    case Swept(ds, at) => m.(lastRun := Some(at), pending := Without(m.pending, ds))
    case SweptAll(at) => m.(lastRun := Some(at), pending := [])
    case Counts(open) => m.(reflectOpen := open)
    case Receipt => m
  }

  /** Unchanged counts are not written again. */
  predicate IsNew(m: Maintenance, record: Record) {
    record.Counts? ==> m.reflectOpen != record.open
  }

  lemma {:induction false} WithoutIs(pending: seq<string>, domains: set<string>, d: string)
    ensures d in Without(pending, domains) <==> d in pending && d !in domains
  {
    if pending != [] { WithoutIs(pending[1..], domains, d); }
  }

  /** A domain is pending after a record exactly when it was, or is recorded so, and no sweep covered it; a sweep is the last run. */
  lemma PendingAfter(m: Maintenance, record: Record, d: string)
    ensures d in Recorded(m, record).pending
       <==> (d in m.pending || record == Pending(d)) && !record.SweptAll? && !(record.Swept? && d in record.domains)
    ensures Recorded(m, record).lastRun == if record.Swept? || record.SweptAll? then Some(record.at) else m.lastRun
    ensures Recorded(m, record).lastNudge == m.lastNudge && Recorded(m, record).lastReflect == m.lastReflect
  {
    if record.Swept? { WithoutIs(m.pending, record.domains, d); }
  }

  function Newest(recalled: seq<string>): seq<string> {
    if |recalled| > RECALLED_MAX then recalled[|recalled| - RECALLED_MAX..] else recalled
  }

  /** A hook or a recorder, by what it has read and does next. */
  datatype Proc =
    | Deciding(call: Call, state: SessionState)                                       // has the session file; writes it
    | Loading(call: Call, state: SessionState)                                        // reads the record
    | StampReads(call: Call, state: SessionState, m: Maintenance, stamp: Stamp)       // reads it again to stamp it
    | StampWrites(call: Call, state: SessionState, m: Maintenance, stamp: Stamp, found: Maintenance)
    | Spoken(call: Call, said: Option<Nudge>)
    | Resetting(session: string, file: Option<SessionState>, lands: bool)
    | Recalling(session: string, read: SessionState, hits: seq<string>, lands: bool)
    | Recording(record: Record, found: Maintenance)
    | Over

  datatype Job =
    | Stop(call: Call)
    | Reset(session: string, lands: bool)
    | Recall(session: string, hits: seq<string>, lands: bool)
    | Records(record: Record)

  /** The first access: every hook reads its session's file, a recorder the record. */
  function Begin(job: Job, disk: Disk): Proc {
    match job
    case Stop(call) => if Counted(call) then Deciding(call, StateOf(disk, call.input.session)) else Spoken(call, None)
    case Reset(s, lands) => Resetting(s, if s in disk.sessions then Some(disk.sessions[s]) else None, lands)
    case Recall(s, hits, lands) => Recalling(s, StateOf(disk, s), hits, lands)
    case Records(record) => Recording(record, disk.maintenance)
  }

  predicate Due(call: Call, state: SessionState, m: Maintenance, stamp: Stamp) {
    match stamp
    case FirstSeen => m.firstSeen.None?
    case Evolve => SaidBy(call, state, m).Some? && SaidBy(call, state, m).value.evolve.Some?
    case Reflect => SaidBy(call, state, m).Some? && SaidBy(call, state, m).value.reflect.Some?
  }

  /** The next stamp that is due, or the call speaks. */
  function NextStamp(call: Call, state: SessionState, m: Maintenance, after: Option<Stamp>): Proc {
    if after.None? && Due(call, state, m, FirstSeen) then StampReads(call, state, m, FirstSeen)
    else if (after.None? || after == Some(FirstSeen)) && Due(call, state, m, Evolve) then StampReads(call, state, m, Evolve)
    else if after != Some(Reflect) && Due(call, state, m, Reflect) then StampReads(call, state, m, Reflect)
    else Spoken(call, SaidBy(call, state, m))
  }

  predicate Finished(p: Proc) {
    p.Spoken? || p.Over?
  }

  /** The next access. */
  function Access(p: Proc, disk: Disk): (Proc, Disk) {
    match p
    case Deciding(call, state) =>
      (Loading(call, state),
       if call.lands.state then disk.(sessions := disk.sessions[call.input.session := Stopped(state, Decide(call, state))]) else disk)
    case Loading(call, state) => (NextStamp(call, state, disk.maintenance, None), disk)
    case StampReads(call, state, m, stamp) => (StampWrites(call, state, m, stamp, disk.maintenance), disk)
    case StampWrites(call, state, m, stamp, found) =>
      (NextStamp(call, state, m, Some(stamp)),
       if Writes(call, stamp, found) then disk.(maintenance := Stamped(found, stamp, call.now)) else disk)
    case Resetting(s, file, lands) =>
      (Over, if lands && file.Some? && file.value.recalled != [] then disk.(sessions := disk.sessions[s := file.value.(recalled := [])]) else disk)
    case Recalling(s, read, hits, lands) =>
      (Over, if lands && hits != [] then disk.(sessions := disk.sessions[s := read.(recalled := Newest(read.recalled + hits))]) else disk)
    case Recording(record, found) => (Over, if IsNew(found, record) then disk.(maintenance := Recorded(found, record)) else disk)
    case _ => (p, disk)
  }

  /** The accesses of a process on the disks they find, until it is finished: where it stands, and the disk each left. */
  function Play(p: Proc, found: seq<Disk>): (Proc, seq<Disk>)
    decreases |found|
  {
    if found == [] || Finished(p) then (p, [])
    else
      var (p', left) := Access(p, found[0]);
      var (end, rest) := Play(p', found[1..]);
      (end, [left] + rest)
  }

  /** The state directory as the hooks rewrite it. */
  class StateDir {
    var sessions: map<string, SessionState>
    var maintenance: Maintenance

    function Contents(): Disk
      reads this
    {
      Disk(sessions, maintenance)
    }

    /** Whatever other processes did to the files between two accesses. */
    method Others(disk: Disk)
      modifies this
      ensures Contents() == disk
    {
      sessions, maintenance := disk.sessions, disk.maintenance;
    }

    method ReadState(session: string) returns (state: Option<SessionState>)
      ensures state == if session in sessions then Some(sessions[session]) else None
    {
      return if session in sessions then Some(sessions[session]) else None;
    }

    method WriteState(session: string, state: SessionState, lands: bool)
      modifies this`sessions
      ensures sessions == if lands then old(sessions)[session := state] else old(sessions)
    {
      if lands { sessions := sessions[session := state]; }
    }

    /** The recorder of a stamp: it reads the record again and writes it back with the one field set. */
    method RecordStamp(call: Call, stamp: Stamp, first: Disk, second: Disk) returns (found: Maintenance)
      modifies this
      ensures found == first.maintenance
      ensures Contents() == if Writes(call, stamp, found) then second.(maintenance := Stamped(found, stamp, call.now)) else second
    {
      Others(first);
      found := maintenance;
      Others(second);
      if Writes(call, stamp, found) { maintenance := Stamped(found, stamp, call.now); }
    }

    /** One Stop, with the disk each of its accesses finds: it says what the process says, and `left` holds the disk each access left. */
    method RunStop(call: Call, found: seq<Disk>) returns (said: Option<Nudge>, ghost left: seq<Disk>)
      requires |found| == 8
      modifies this
      ensures (Spoken(call, said), left) == Play(Begin(Stop(call), old(Contents())), found)
    {
      hide ValidSessionId, Decide, Stopped, Play, NextStamp, Rest;
      var input := call.input;
      left := [];
      ghost var p := Begin(Stop(call), Contents());
      RestStart(p, found);
      if (input.event.Some? && input.event.value != "Stop") || input.active || !ValidSessionId(input.session) || !call.facts.loaded {
        RestEnd(p, found, 0, left);
        return None, left;
      }
      var read := ReadState(input.session);
      var state := if read.Some? then read.value else FRESH;
      var nudge := Decide(call, state);
      // The mark goes first: if the process dies here, the session is not nudged twice.
      Others(found[0]);
      WriteState(input.session, Stopped(state, nudge), call.lands.state);
      RestNext(p, found, 0, left);
      p, left := Loading(call, state), left + [Contents()];
      Others(found[1]);
      var m := maintenance;
      RestNext(p, found, 1, left);
      p, left := NextStamp(call, state, m, None), left + [Contents()];
      ghost var stamped;
      said, stamped := StampAndSay(call, state, m, nudge, found[2..]);
      RestPlay(p, found, 2, left);
      left := left + stamped;
    }

    /** What a Stop does once it has the record: its stamps, each before the line it belongs to is said. */
    method StampAndSay(call: Call, state: SessionState, m: Maintenance, nudge: bool, found: seq<Disk>)
      returns (said: Option<Nudge>, ghost left: seq<Disk>)
      requires |found| == 6 && Counted(call) && nudge == Decide(call, state)
      modifies this
      ensures (Spoken(call, said), left) == Play(NextStamp(call, state, m, None), found)
    {
      hide *;
      left := [];
      ghost var p := NextStamp(call, state, m, None);
      RestStart(p, found);
      var k := 0;
      StampOrder(call, state, m);
      if m.firstSeen.None? {
        var read := RecordStamp(call, FirstSeen, found[k], found[k + 1]);
        RestStamp(p, found, k, left);
        p, left, k := NextStamp(call, state, m, Some(FirstSeen)), left + [found[k], Contents()], k + 2;
      }
      if !nudge {
        Silent(call, state, m);
        RestEnd(p, found, k, left);
        return None, left;
      }
      var seen := Seen(m, call.now);
      var visible := WithRemote(RegisteredPending(seen.pending, call.facts.writable), call.facts.remotePending);
      var evolve := EvolveAsk(seen.(pending := visible), call.now);
      var counts := OpenCounts(seen, call.facts, state);
      var reflect: Option<map<string, nat>> := if ReflectAsk(seen, call.now) && counts != map[] then Some(counts) else None;
      Speaks(call, state, m, evolve, reflect);
      if evolve.Some? {
        var read := RecordStamp(call, Evolve, found[k], found[k + 1]);
        RestStamp(p, found, k, left);
        p, left, k := NextStamp(call, state, m, Some(Evolve)), left + [found[k], Contents()], k + 2;
      }
      if reflect.Some? {
        var read := RecordStamp(call, Reflect, found[k], found[k + 1]);
        RestStamp(p, found, k, left);
        p, left, k := NextStamp(call, state, m, Some(Reflect)), left + [found[k], Contents()], k + 2;
      }
      said := Some(Nudge(evolve, call.facts.share, reflect));
      RestEnd(p, found, k, left);
    }

    /** A reset, with the disk its write finds: it writes back the whole state it read. */
    method ResetRecalled(session: string, lands: bool, found: Disk)
      modifies this
      ensures Contents() == Access(Begin(Reset(session, lands), old(Contents())), found).1
    {
      var read := ReadState(session);
      Others(found);
      if read.None? { return; }
      var state := read.value;
      if state.recalled == [] { return; }
      WriteState(session, state.(recalled := []), lands);
    }
  }

  /** What is left to do from the `k`-th access on, behind the disks already left. */
  ghost function Rest(p: Proc, found: seq<Disk>, k: nat, left: seq<Disk>): (Proc, seq<Disk>)
    requires k <= |found|
  {
    var (end, rest) := Play(p, found[k..]);
    (end, left + rest)
  }

  lemma RestStart(p: Proc, found: seq<Disk>)
    ensures Rest(p, found, 0, []) == Play(p, found)
  {
    hide Play;
    assert found[0..] == found;
    assert [] + Play(p, found).1 == Play(p, found).1;
  }

  lemma RestPlay(p: Proc, found: seq<Disk>, k: nat, left: seq<Disk>)
    requires k <= |found|
    ensures Rest(p, found, k, left) == (Play(p, found[k..]).0, left + Play(p, found[k..]).1)
  {
    hide Play;
  }

  lemma RestEnd(p: Proc, found: seq<Disk>, k: nat, left: seq<Disk>)
    requires k <= |found| && Finished(p)
    ensures Rest(p, found, k, left) == (p, left)
  {
    assert left + [] == left;
  }

  lemma RestNext(p: Proc, found: seq<Disk>, k: nat, left: seq<Disk>)
    requires k < |found| && !Finished(p)
    ensures var (p', disk) := Access(p, found[k]); Rest(p, found, k, left) == Rest(p', found, k + 1, left + [disk])
  {
    hide Access;
    assert found[k..][1..] == found[k + 1..];
    var (p', disk) := Access(p, found[k]);
    var rest := Play(p', found[k + 1..]).1;
    assert left + ([disk] + rest) == left + [disk] + rest;
  }

  lemma RestStamp(p: Proc, found: seq<Disk>, k: nat, left: seq<Disk>)
    requires k + 1 < |found| && p.StampReads?
    ensures var m, disk := found[k].maintenance, found[k + 1];
            var after := if Writes(p.call, p.stamp, m) then disk.(maintenance := Stamped(m, p.stamp, p.call.now)) else disk;
            Rest(p, found, k, left) == Rest(NextStamp(p.call, p.state, p.m, Some(p.stamp)), found, k + 2, left + [found[k], after])
  {
    hide Rest, NextStamp;
    RestNext(p, found, k, left);
    var write := StampWrites(p.call, p.state, p.m, p.stamp, found[k].maintenance);
    RestNext(write, found, k + 1, left + [found[k]]);
    var after := Access(write, found[k + 1]).1;
    assert left + [found[k]] + [after] == left + [found[k], after];
  }

  lemma StampOrder(call: Call, state: SessionState, m: Maintenance)
    ensures NextStamp(call, state, m, None)
         == if m.firstSeen.None? then StampReads(call, state, m, FirstSeen) else NextStamp(call, state, m, Some(FirstSeen))
  {
    hide SaidBy;
  }

  lemma Silent(call: Call, state: SessionState, m: Maintenance)
    requires !Decide(call, state)
    ensures NextStamp(call, state, m, Some(FirstSeen)) == Spoken(call, None)
  {
    hide Decide;
  }

  lemma Speaks(call: Call, state: SessionState, m: Maintenance, evolve: Option<seq<string>>, reflect: Option<map<string, nat>>)
    requires Counted(call) && Decide(call, state)
    requires var seen := Seen(m, call.now);
             && evolve == EvolveAsk(seen.(pending := WithRemote(RegisteredPending(seen.pending, call.facts.writable), call.facts.remotePending)), call.now)
             && (var counts := OpenCounts(seen, call.facts, state);
                 reflect == if ReflectAsk(seen, call.now) && counts != map[] then Some(counts) else None)
    ensures var said := Spoken(call, Some(Nudge(evolve, call.facts.share, reflect)));
            && NextStamp(call, state, m, Some(Reflect)) == said
            && NextStamp(call, state, m, Some(Evolve)) == (if reflect.Some? then StampReads(call, state, m, Reflect) else said)
            && NextStamp(call, state, m, Some(FirstSeen))
               == (if evolve.Some? then StampReads(call, state, m, Evolve) else NextStamp(call, state, m, Some(Evolve)))
  {
    hide Decide, EvolveAsk, OpenCounts, WithRemote, RegisteredPending, Counted;
  }

  lemma {:induction false} RegisteredAre(pending: seq<string>, registered: seq<string>, d: string)
    ensures d in RegisteredPending(pending, registered) <==> d in pending && d in registered
  {
    if pending != [] { RegisteredAre(pending[1..], registered, d); }
  }

  lemma {:induction false} RemoteJoins(pending: seq<string>, remote: seq<string>, d: string)
    ensures d in WithRemote(pending, remote) <==> d in pending || d in remote
    decreases |remote|
  {
    if remote != [] { RemoteJoins(if remote[0] in pending then pending else pending + [remote[0]], remote[1..], d); }
  }

  /** The ask names exactly the backlog it can point at: the pending domains this machine can still write to, and the sources'. */
  lemma FocusDomains(call: Call, state: SessionState, m: Maintenance, d: string)
    requires SaidBy(call, state, m).Some? && SaidBy(call, state, m).value.evolve.Some?
    ensures d in SaidBy(call, state, m).value.evolve.value
       <==> (d in m.pending && d in call.facts.writable) || d in call.facts.remotePending
  {
    hide OpenCounts, WithRemote, RegisteredPending, Decide, Counted;
    var pending := RegisteredPending(m.pending, call.facts.writable);
    RegisteredAre(m.pending, call.facts.writable, d);
    RemoteJoins(pending, call.facts.remotePending, d);
  }

  /** Some domain is pending that this machine can write to, or that a source reports. */
  predicate SomePending(call: Call, m: Maintenance) {
    (exists d | d in m.pending :: d in call.facts.writable) || call.facts.remotePending != []
  }

  /** Seven days since the last sweep, or, before any, since the machine was first seen. */
  predicate WeekGone(m: Maintenance, now: Time) {
    || (m.lastRun.Some? && now - m.lastRun.value >= 7 * 24 * HOUR)
    || (m.lastRun.None? && m.firstSeen.Some? && now - m.firstSeen.value >= 7 * 24 * HOUR)
  }

  /** A nudge asks for maintenance exactly when the last such ask is a day old, or there was none, and a domain is pending or a week has gone by. */
  lemma AskIsDue(call: Call, state: SessionState, m: Maintenance)
    requires SaidBy(call, state, m).Some?
    ensures SaidBy(call, state, m).value.evolve.Some?
       <==> && (m.lastNudge.None? || call.now - m.lastNudge.value >= 24 * HOUR)
            && (SomePending(call, m) || WeekGone(m, call.now))
  {
    hide OpenCounts, WithRemote, RegisteredPending, Decide, Counted;
    var pending := RegisteredPending(m.pending, call.facts.writable);
    var all := WithRemote(pending, call.facts.remotePending);
    if all != [] {
      RemoteJoins(pending, call.facts.remotePending, all[0]);
      RegisteredAre(m.pending, call.facts.writable, all[0]);
    }
    if d :| d in m.pending && d in call.facts.writable {
      RegisteredAre(m.pending, call.facts.writable, d);
      RemoteJoins(pending, call.facts.remotePending, d);
    }
    if call.facts.remotePending != [] { RemoteJoins(pending, call.facts.remotePending, call.facts.remotePending[0]); }
  }

  /** A recalled address names the domain between the scheme and the next slash. */
  lemma DomainIs(address: string, domain: string)
    ensures DomainOf(address) == Some(domain)
       <==> && domain != "" && '/' !in domain
            && (address == SCHEME + domain || exists rest :: address == SCHEME + domain + "/" + rest)
  {
    hide Split;
    if SCHEME <= address {
      var after := address[|SCHEME|..];
      assert address == SCHEME + after;
      HeadIs(after);
      var head := Split(after, '/')[0];
      if after != head {
        assert address == SCHEME + head + "/" + after[|head| + 1..];
      }
      forall rest | address == SCHEME + domain + "/" + rest && '/' !in domain
        ensures head == domain
      {
        assert SCHEME + domain + "/" + rest == SCHEME + (domain + "/" + rest);
        assert after == domain + ['/'] + rest;
        SplitAppend(domain, rest, '/');
        SplitPlain(domain, '/');
      }
      if address == SCHEME + domain && '/' !in domain {
        assert after == domain;
        SplitPlain(domain, '/');
      }
    } else {
      forall rest
        ensures address != SCHEME + domain + "/" + rest
      {
        assert SCHEME <= SCHEME + domain + "/" + rest;
      }
    }
  }

  lemma {:induction false} HeadIs(s: string)
    ensures var head := Split(s, '/')[0];
            '/' !in head && (s == head || (|head| < |s| && s == head + "/" + s[|head| + 1..]))
  {
    if s != "" && s[0] != '/' { HeadIs(s[1..]); }
  }

  /** The session recalled something from the domain. */
  ghost predicate RecalledFrom(state: SessionState, domain: string) {
    && domain != "" && '/' !in domain
    && exists address :: address in state.recalled && (address == SCHEME + domain || exists rest :: address == SCHEME + domain + "/" + rest)
  }

  lemma SessionDomainsAre(state: SessionState, domain: string)
    ensures domain in SessionDomains(state) <==> RecalledFrom(state, domain)
  {
    hide DomainOf;
    forall address | address in state.recalled
      ensures DomainOf(address) == Some(domain)
         <==> domain != "" && '/' !in domain && (address == SCHEME + domain || exists rest :: address == SCHEME + domain + "/" + rest)
    {
      DomainIs(address, domain);
    }
  }

  /** The open count of a domain: a source's over this machine's, and this machine's only of a domain it shows. */
  function OpenCount(call: Call, m: Maintenance, domain: string): nat {
    if domain in call.facts.remoteReflect then call.facts.remoteReflect[domain]
    else if domain in m.reflectOpen && domain in call.facts.shown then m.reflectOpen[domain]
    else 0
  }

  /** The domain counts for the reflect ask: something is open there, and the session recalled from it, or from nowhere. */
  ghost predicate OpenFor(call: Call, state: SessionState, m: Maintenance, domain: string) {
    OpenCount(call, m, domain) > 0 && (RecalledFrom(state, domain) || forall other :: !RecalledFrom(state, other))
  }

  lemma OpenCountsAre(call: Call, state: SessionState, m: Maintenance, domain: string)
    ensures domain in OpenCounts(m, call.facts, state) <==> OpenFor(call, state, m, domain)
    ensures domain in OpenCounts(m, call.facts, state) ==> OpenCounts(m, call.facts, state)[domain] == OpenCount(call, m, domain)
  {
    hide SessionDomains, RecalledFrom;
    forall d
      ensures d in SessionDomains(state) <==> RecalledFrom(state, d)
    {
      SessionDomainsAre(state, d);
    }
  }

  /** A nudge asks for reflection exactly when the last such ask is a day old, or there was none, and some domain counts; it names those that do, with their open counts. */
  lemma ReflectIsDue(call: Call, state: SessionState, m: Maintenance)
    requires SaidBy(call, state, m).Some?
    ensures var reflect := SaidBy(call, state, m).value.reflect;
            && (reflect.Some? <==> (m.lastReflect.None? || call.now - m.lastReflect.value >= 24 * HOUR) && exists d :: OpenFor(call, state, m, d))
            && (reflect.Some? ==> forall d :: (d in reflect.value <==> OpenFor(call, state, m, d))
                                    && (d in reflect.value ==> reflect.value[d] == OpenCount(call, m, d)))
  {
    hide OpenFor, OpenCount, OpenCounts, WithRemote, RegisteredPending, Decide, Counted, EvolveAsk;
    var seen := Seen(m, call.now);
    forall d
      ensures d in OpenCounts(seen, call.facts, state) <==> OpenFor(call, state, m, d)
      ensures d in OpenCounts(seen, call.facts, state) ==> OpenCounts(seen, call.facts, state)[d] == OpenCount(call, m, d)
    {
      OpenCountsAre(call, state, seen, d);
      SeenCounts(call, state, m, d);
    }
    if exists d :: OpenFor(call, state, m, d) {
      var d :| OpenFor(call, state, m, d);
      assert d in OpenCounts(seen, call.facts, state);
    }
  }

  lemma SeenCounts(call: Call, state: SessionState, m: Maintenance, d: string)
    ensures OpenFor(call, state, Seen(m, call.now), d) <==> OpenFor(call, state, m, d)
    ensures OpenCount(call, Seen(m, call.now), d) == OpenCount(call, m, d)
  {
    hide RecalledFrom;
  }

  // ----- a Stop with nothing in between

  /** What a Stop says when nothing happens between its accesses. */
  function Said(disk: Disk, call: Call): Option<Nudge> {
    SaidBy(call, StateOf(disk, call.input.session), disk.maintenance)
  }

  /** The files it leaves then: each stamp touches one field. */
  function AfterStop(disk: Disk, call: Call): Disk {
    if !Counted(call) then disk
    else
      var session, said := call.input.session, Said(disk, call);
      var m := if call.lands.firstSeen then Seen(disk.maintenance, call.now) else disk.maintenance;
      Disk(if call.lands.state then disk.sessions[session := Stopped(StateOf(disk, session), Decide(call, StateOf(disk, session)))] else disk.sessions,
           m.(lastNudge := if said.Some? && said.value.evolve.Some? && call.lands.nudge then Some(call.now) else m.lastNudge,
              lastReflect := if said.Some? && said.value.reflect.Some? && call.lands.reflect then Some(call.now) else m.lastReflect))
  }

  /** Every access finds the disk the one before it left. */
  ghost predicate Undisturbed(disk: Disk, found: seq<Disk>, left: seq<Disk>) {
    && |left| <= |found| && (left != [] ==> found[0] == disk)
    && forall k | 0 < k < |left| :: found[k] == left[k - 1]
  }

  /** The process is past its load, or has spoken: it stands for this call, this file and this record. */
  predicate StandsFor(p: Proc, call: Call, state: SessionState, m: Maintenance) {
    || (p.StampReads? && p.call == call && p.state == state && p.m == m)
    || (p.StampWrites? && p.call == call && p.state == state && p.m == m)
    || p == Spoken(call, SaidBy(call, state, m))
  }

  lemma NextStands(call: Call, state: SessionState, m: Maintenance, after: Option<Stamp>)
    ensures StandsFor(NextStamp(call, state, m, after), call, state, m) && !NextStamp(call, state, m, after).StampWrites?
  {
    hide SaidBy, Due;
  }

  lemma StandsStep(p: Proc, disk: Disk, call: Call, state: SessionState, m: Maintenance)
    requires StandsFor(p, call, state, m)
    ensures StandsFor(Access(p, disk).0, call, state, m)
  {
    hide SaidBy, NextStamp;
    if p.StampWrites? { NextStands(call, state, m, Some(p.stamp)); }
  }

  /** What a call says is settled when it loads the record, whatever its stamps find. */
  lemma {:induction false} SaysWhatItLoaded(p: Proc, found: seq<Disk>, call: Call, state: SessionState, m: Maintenance)
    requires StandsFor(p, call, state, m)
    ensures StandsFor(Play(p, found).0, call, state, m)
    decreases |found|
  {
    hide StandsFor, Access;
    if found != [] && !Finished(p) {
      StandsStep(p, found[0], call, state, m);
      SaysWhatItLoaded(Access(p, found[0]).0, found[1..], call, state, m);
    }
  }

  /** Where an undisturbed process leaves the disk. */
  ghost function Leaves(disk: Disk, left: seq<Disk>): Disk {
    if left == [] then disk else left[|left| - 1]
  }

  lemma PlayNext(p: Proc, disk: Disk, found: seq<Disk>)
    requires !Finished(p) && Finished(Play(p, found).0) && Undisturbed(disk, found, Play(p, found).1)
    ensures found != [] && found[0] == disk
    ensures var (p', disk') := Access(p, disk);
            && Play(p', found[1..]).0 == Play(p, found).0
            && Undisturbed(disk', found[1..], Play(p', found[1..]).1)
            && Leaves(disk', Play(p', found[1..]).1) == Leaves(disk, Play(p, found).1)
  {
    hide Access;
    var left := Play(p, found).1;
    var (p', disk') := Access(p, disk);
    assert left[1..] == Play(p', found[1..]).1;
    assert left[0] == disk';
  }

  lemma NextIsStamp(call: Call, state: SessionState, m: Maintenance, after: Option<Stamp>)
    ensures var p := NextStamp(call, state, m, after);
            (p.StampReads? && p.call == call && p.state == state && p.m == m && Order(p.stamp) > OrderOf(after)) || p.Spoken?
  {
    hide Due, SaidBy;
  }

  function Order(stamp: Stamp): nat {
    match stamp
    case FirstSeen => 1
    case Evolve => 2
    case Reflect => 3
  }

  function OrderOf(after: Option<Stamp>): nat {
    if after.None? then 0 else Order(after.value)
  }

  /** The stamps still due, made one after the other. */
  function StampedFrom(p: Proc, disk: Disk): Disk
    requires p.StampReads? || p.Spoken?
    decreases if p.StampReads? then 4 - Order(p.stamp) else 0
  {
    if p.Spoken? then disk
    else
      NextIsStamp(p.call, p.state, p.m, Some(p.stamp));
      var after := if Writes(p.call, p.stamp, disk.maintenance) then disk.(maintenance := Stamped(disk.maintenance, p.stamp, p.call.now)) else disk;
      StampedFrom(NextStamp(p.call, p.state, p.m, Some(p.stamp)), after)
  }

  /** Left alone, the stamps still due are made one after the other. */
  lemma {:induction false} StampsAlone(p: Proc, disk: Disk, found: seq<Disk>)
    requires p.StampReads? || p.Spoken?
    requires Finished(Play(p, found).0) && Undisturbed(disk, found, Play(p, found).1)
    ensures Leaves(disk, Play(p, found).1) == StampedFrom(p, disk)
    decreases |found|
  {
    hide NextStamp, Undisturbed, Play, Leaves;
    if p.StampReads? {
      var write := StampWrites(p.call, p.state, p.m, p.stamp, disk.maintenance);
      PlayNext(p, disk, found);
      PlayNext(write, disk, found[1..]);
      NextIsStamp(p.call, p.state, p.m, Some(p.stamp));
      var (next, after) := Access(write, disk);
      StampsAlone(next, after, found[1..][1..]);
    } else {
      SpokenLeaves(p, disk, found);
    }
  }

  lemma SpokenLeaves(p: Proc, disk: Disk, found: seq<Disk>)
    requires p.Spoken?
    ensures Play(p, found) == (p, []) && Leaves(disk, []) == disk
  {}

  /** Left alone, a Stop says and leaves what its closed form says. */
  lemma StopAlone(call: Call, disk: Disk, found: seq<Disk>)
    requires var p := Begin(Stop(call), disk);
             Finished(Play(p, found).0) && Undisturbed(disk, found, Play(p, found).1)
    ensures var p := Begin(Stop(call), disk);
            Play(p, found).0 == Spoken(call, Said(disk, call)) && Leaves(disk, Play(p, found).1) == AfterStop(disk, call)
  {
    hide Undisturbed, Play, Leaves, Counted, Decide, NextStamp, Due, EvolveAsk, OpenCounts, WithRemote, RegisteredPending, AfterStop, Stopped, StandsFor;
    var p := Begin(Stop(call), disk);
    if !Counted(call) {
      SpokenLeaves(p, disk, found);
      UncountedStays(disk, call);
    } else {
      var state, m := p.state, disk.maintenance;
      PlayNext(p, disk, found);
      var (loading, written) := Access(p, disk);
      PlayNext(loading, written, found[1..]);
      var next, rest := NextStamp(call, state, m, None), found[1..][1..];
      NextStands(call, state, m, None);
      SaysWhatItLoaded(next, rest, call, state, m);
      EndSays(Play(next, rest).0, call, state, m);
      NextIsStamp(call, state, m, None);
      StampsAlone(next, written, rest);
      StampsAre(disk, call, state);
    }
  }

  lemma EndSays(p: Proc, call: Call, state: SessionState, m: Maintenance)
    requires StandsFor(p, call, state, m) && Finished(p)
    ensures p == Spoken(call, SaidBy(call, state, m))
  {}

  lemma UncountedStays(disk: Disk, call: Call)
    requires !Counted(call)
    ensures AfterStop(disk, call) == disk && Said(disk, call) == None
  {}

  lemma StampedNext(call: Call, state: SessionState, m: Maintenance, stamp: Stamp, disk: Disk)
    ensures var next := NextStamp(call, state, m, Some(stamp));
            (next.StampReads? || next.Spoken?)
            && StampedFrom(StampReads(call, state, m, stamp), disk)
               == StampedFrom(next, if Writes(call, stamp, disk.maintenance) then disk.(maintenance := Stamped(disk.maintenance, stamp, call.now)) else disk)
  {
    hide NextStamp, Writes, Stamped;
    NextIsStamp(call, state, m, Some(stamp));
  }

  lemma StampsAre(disk: Disk, call: Call, state: SessionState)
    requires Counted(call) && state == StateOf(disk, call.input.session)
    ensures var written := Access(Deciding(call, state), disk).1;
            var next := NextStamp(call, state, disk.maintenance, None);
            (next.StampReads? || next.Spoken?) && StampedFrom(next, written) == AfterStop(disk, call)
  {
    hide Counted, Decide, EvolveAsk, OpenCounts, WithRemote, RegisteredPending, Stopped, StampedFrom, SaidBy;
    var m := disk.maintenance;
    var d0 := Access(Deciding(call, state), disk).1;
    NextIsStamp(call, state, m, None);
    StampOrder(call, state, m);
    StampedNext(call, state, m, FirstSeen, d0);
    var d1 := if m.firstSeen.None? && Writes(call, FirstSeen, m) then d0.(maintenance := Stamped(m, FirstSeen, call.now)) else d0;
    StampedNext(call, state, m, Evolve, d1);
    var d2 := if Due(call, state, m, Evolve) && Writes(call, Evolve, d1.maintenance) then d1.(maintenance := Stamped(d1.maintenance, Evolve, call.now)) else d1;
    StampedNext(call, state, m, Reflect, d2);
    StampedEnd(call, SaidBy(call, state, m));
  }

  lemma StampedEnd(call: Call, said: Option<Nudge>)
    ensures forall disk :: StampedFrom(Spoken(call, said), disk) == disk
  {}

  /** The same call repeated right after a nudge nudges again exactly when the mark was not written. */
  lemma NudgesAgain(disk: Disk, call: Call)
    requires Said(disk, call).Some?
    ensures Said(AfterStop(disk, call), call).Some? <==> !call.lands.state
  {
    hide EvolveAsk, OpenCounts, WithRemote, RegisteredPending, ValidSessionId;
  }

  /** Another session's call at the same instant asks again exactly when the stamp was lost. */
  lemma LostStampAsksAgain(disk: Disk, call: Call, other: string)
    requires Said(disk, call).Some? && Said(disk, call).value.evolve.Some? && call.lands.firstSeen
    requires other != call.input.session && ValidSessionId(other)
    requires StateOf(disk, other) == StateOf(disk, call.input.session)
    ensures var again := Said(AfterStop(disk, call), call.(input := call.input.(session := other)));
            again.Some? && (again.value.evolve.Some? <==> !call.lands.nudge)
  {
    hide OpenCounts, WithRemote, RegisteredPending, ValidSessionId;
  }
}
