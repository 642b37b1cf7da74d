/** The accept loops of the socket server and the connection threads they start, as
  interleaved atomic steps on a shared counter and a shutdown flag. */
module Server {

  const MAX_CONNECTIONS := 64
  const USIZE := 0x1_0000_0000_0000_0000

  /** Where one accept loop stands. */
  datatype Pc =
    | Accepting              // blocked in accept
    | Returned(ok: bool)     // accept returned a stream or an error
    | Checked                // the flag was clear, the stream is in hand
    | Refusing               // the counter was full: the increment is to be undone
    | Reserved               // a slot is held, the thread is to be started
    | Releasing              // the thread did not start: the slot is to be given back
    | Ending                 // the flag is looked at once more
    | Done

  /** `served` connections have a thread that has not given its slot back. `woken`
    records the listeners that a wake-up has reached; no step reads it. */
  datatype Server = Server(
    active: nat, served: nat, flag: bool, loops: seq<Pc>, queues: seq<nat>, wakers: seq<nat>, woken: seq<bool>)

  datatype Action =
    | Knock(i: nat)                 // a client connects to listener `i`
    | Return(i: nat, ok: bool)      // accept returns
    | Check(i: nat)
    | Reserve(i: nat)               // fetch_add
    | Refuse(i: nat)                // fetch_sub
    | Spawn(i: nat, ok: bool)
    | Release(i: nat)               // fetch_sub
    | Finish(i: nat)
    | Close                         // a connection thread ends: fetch_sub
    | Request                       // a connection asks for shutdown: the flag is set
    | Wake(w: nat, ok: bool)        // and each listener connected to in turn

  function Added(n: nat): nat {
    (n + 1) % USIZE
  }

  /** An atomic decrement wraps below zero. */
  function Subtracted(n: nat): nat {
    if n == 0 then USIZE - 1 else n - 1
  }

  predicate At(s: Server, i: nat, pc: Pc) {
    i < |s.loops| && s.loops[i] == pc
  }

  predicate Enabled(s: Server, a: Action) {
    |s.queues| == |s.loops| == |s.woken| &&
    match a
    case Knock(i) => i < |s.loops|
    case Return(i, ok) => At(s, i, Accepting) && (ok ==> s.queues[i] > 0)
    case Check(i) => i < |s.loops| && s.loops[i].Returned?
    case Reserve(i) => At(s, i, Checked)
    case Refuse(i) => At(s, i, Refusing)
    case Spawn(i, _) => At(s, i, Reserved)
    case Release(i) => At(s, i, Releasing)
    case Finish(i) => At(s, i, Ending)
    case Close => s.served > 0
    case Request => s.served > 0
    case Wake(w, _) => w < |s.wakers| && s.wakers[w] < |s.loops|
  }

  function Moved(s: Server, i: nat, pc: Pc): Server
    requires i < |s.loops|
  {
    s.(loops := s.loops[i := pc])
  }

  function Next(s: Server, a: Action): Server
    requires Enabled(s, a)
  {
    match a
    case Knock(i) => s.(queues := s.queues[i := s.queues[i] + 1])
    case Return(i, ok) =>
      Moved(if ok then s.(queues := s.queues[i := s.queues[i] - 1]) else s, i, Returned(ok))
    case Check(i) => Moved(s, i, if s.flag then Done else if s.loops[i].ok then Checked else Accepting)
    case Reserve(i) => Moved(s.(active := Added(s.active)), i, if s.active >= MAX_CONNECTIONS then Refusing else Reserved)
    case Refuse(i) => Moved(s.(active := Subtracted(s.active)), i, Accepting)
    case Spawn(i, ok) => if ok then Moved(s.(served := s.served + 1), i, Ending) else Moved(s, i, Releasing)
    case Release(i) => Moved(s.(active := Subtracted(s.active)), i, Ending)
    case Finish(i) => Moved(s, i, if s.flag then Done else Accepting)
    case Close => s.(served := s.served - 1, active := Subtracted(s.active))
    case Request => s.(flag := true, wakers := s.wakers + [0])
    case Wake(w, ok) =>
      var i := s.wakers[w];
      var s1 := s.(wakers := s.wakers[w := i + 1]);
      if ok then s1.(queues := s1.queues[i := s1.queues[i] + 1], woken := s1.woken[i := true]) else s1
  }

  predicate Runs(s: Server, run: seq<Action>)
    decreases |run|
  {
    run == [] || (Enabled(s, run[0]) && Runs(Next(s, run[0]), run[1..]))
  }

  function After(s: Server, run: seq<Action>): Server
    requires Runs(s, run)
    decreases |run|
  {
    if run == [] then s else After(Next(s, run[0]), run[1..])
  }

  /** `n` listeners, nothing served, nobody asking to stop. */
  predicate Initial(s: Server) {
    && s.active == 0 && s.served == 0 && !s.flag && s.wakers == []
    && |s.queues| == |s.loops| == |s.woken| < USIZE - MAX_CONNECTIONS - 1
    && (forall i :: 0 <= i < |s.loops| ==> s.loops[i] == Accepting)
    && (forall i :: 0 <= i < |s.woken| ==> !s.woken[i])
  }

  // ---- The counter ----

  /** The loop has incremented the counter and not passed the slot on. */
  predicate Counts(pc: Pc) {
    pc.Refusing? || pc.Reserved? || pc.Releasing?
  }

  /** The loop holds a slot that was granted. */
  predicate Holds(pc: Pc) {
    pc.Reserved? || pc.Releasing?
  }

  function Count(loops: seq<Pc>, p: Pc -> bool): (n: nat)
    ensures n <= |loops|
  {
    if loops == [] then 0 else Count(loops[1..], p) + if p(loops[0]) then 1 else 0
  }

  lemma {:induction false} CountMoved(loops: seq<Pc>, i: nat, pc: Pc, p: Pc -> bool)
    requires i < |loops|
    ensures Count(loops[i := pc], p) == Count(loops, p) - (if p(loops[i]) then 1 else 0) + (if p(pc) then 1 else 0)
    decreases |loops|
  {
    if i == 0 {
      assert loops[0 := pc][1..] == loops[1..];
    } else {
      assert loops[i := pc][1..] == loops[1..][i - 1 := pc];
      CountMoved(loops[1..], i - 1, pc, p);
    }
  }

  lemma {:induction false} CountNone(loops: seq<Pc>, p: Pc -> bool)
    requires forall i :: 0 <= i < |loops| ==> !p(loops[i])
    ensures Count(loops, p) == 0
    decreases |loops|
  {
    if loops != [] {
      CountNone(loops[1..], p);
    }
  }

  lemma CountSome(loops: seq<Pc>, i: nat, p: Pc -> bool)
    requires i < |loops| && p(loops[i])
    ensures Count(loops, p) >= 1
    decreases |loops|
  {
    if i > 0 {
      CountSome(loops[1..], i - 1, p);
    }
  }

  lemma {:induction false} CountOrder(loops: seq<Pc>)
    ensures Count(loops, Holds) <= Count(loops, Counts)
    decreases |loops|
  {
    if loops != [] {
      CountOrder(loops[1..]);
    }
  }

  /** The counter is what is served and what the loops have added and not settled; what
    is served and what is granted never exceed the limit. */
  ghost predicate Sound(s: Server) {
    && |s.queues| == |s.loops| == |s.woken| < USIZE - MAX_CONNECTIONS - 1
    && s.active == s.served + Count(s.loops, Counts)
    && s.served + Count(s.loops, Holds) <= MAX_CONNECTIONS
  }

  function One(b: bool): nat {
    if b then 1 else 0
  }

  /** One loop moves, and the counter and the served connections with it. */
  lemma LoopKeepsSound(s: Server, t: Server, i: nat, pc: Pc)
    requires Sound(s) && i < |s.loops| && t.loops == s.loops[i := pc]
    requires |t.queues| == |s.queues| && |t.woken| == |s.woken|
    requires t.active - t.served - One(Counts(pc)) == s.active - s.served - One(Counts(s.loops[i]))
    requires t.served + One(Holds(pc)) <= s.served + One(Holds(s.loops[i])) || s.active < MAX_CONNECTIONS
    requires t.served + One(Holds(pc)) <= s.served + One(Holds(s.loops[i])) + 1
    ensures Sound(t)
  {
    CountOrder(s.loops);
    CountMoved(s.loops, i, pc, Counts);
    CountMoved(s.loops, i, pc, Holds);
    hide Count;
  }

  lemma CounterInRange(s: Server, i: nat)
    requires Sound(s)
    ensures s.active < USIZE - 1 && s.served <= s.active
    ensures i < |s.loops| && Counts(s.loops[i]) ==> s.active > 0
  {
    CountOrder(s.loops);
    if i < |s.loops| && Counts(s.loops[i]) {
      CountSome(s.loops, i, Counts);
    }
  }

  lemma LoopStepKeepsSound(s: Server, a: Action, i: nat)
    requires Sound(s) && Enabled(s, a) && OfLoop(a, i)
    ensures Sound(Next(s, a))
  {
    hide Sound, Count;
    CounterInRange(s, i);
    var t := Next(s, a);
    match a {
      case Return(_, ok) => LoopKeepsSound(s, t, i, Returned(ok));
      case Check(_) => LoopKeepsSound(s, t, i, t.loops[i]);
      case Reserve(_) => LoopKeepsSound(s, t, i, t.loops[i]);
      case Refuse(_) => LoopKeepsSound(s, t, i, Accepting);
      case Spawn(_, _) => LoopKeepsSound(s, t, i, t.loops[i]);
      case Release(_) => LoopKeepsSound(s, t, i, Ending);
      case Finish(_) => LoopKeepsSound(s, t, i, t.loops[i]);
    }
  }

  lemma StepKeepsSound(s: Server, a: Action)
    requires Sound(s) && Enabled(s, a)
    ensures Sound(Next(s, a))
  {
    match a {
      case Knock(_) =>
      case Request =>
      case Wake(_, _) =>
      case Close => CounterInRange(s, |s.loops|);
      case _ =>
        hide Sound, Next;
        LoopStepKeepsSound(s, a, a.i);
    }
  }

  /** The decrements never go below zero. */
  predicate Underflows(s: Server, a: Action) {
    (a.Refuse? || a.Release? || a.Close?) && s.active == 0
  }

  lemma StepNeverUnderflows(s: Server, a: Action)
    requires Sound(s) && Enabled(s, a)
    ensures !Underflows(s, a)
  {
    if a.Refuse? || a.Release? {
      CountSome(s.loops, a.i, Counts);
    }
  }

  lemma {:induction false} RunKeepsSound(s: Server, run: seq<Action>)
    requires Sound(s) && Runs(s, run)
    ensures Sound(After(s, run))
    decreases |run|
  {
    if run != [] {
      hide Sound;
      StepKeepsSound(s, run[0]);
      RunKeepsSound(Next(s, run[0]), run[1..]);
    }
  }

  /** Under every interleaving of any number of accept loops, connection threads,
    clients and shutdown requests: connections served and slots granted never exceed
    the limit, no decrement underflows, and the counter is the number served when no
    loop is in the middle of a step. */
  lemma ConnectionsAreBounded(s: Server, run: seq<Action>)
    requires Initial(s) && Runs(s, run)
    ensures var t := After(s, run);
            && t.served + Count(t.loops, Holds) <= MAX_CONNECTIONS
            && (forall a :: Enabled(t, a) ==> !Underflows(t, a))
            && ((forall i :: 0 <= i < |t.loops| ==> !Counts(t.loops[i])) ==> t.active == t.served)
  {
    CountNone(s.loops, Counts);
    CountNone(s.loops, Holds);
    RunKeepsSound(s, run);
    var t := After(s, run);
    hide After, Runs, Count;
    forall a | Enabled(t, a) ensures !Underflows(t, a) {
      StepNeverUnderflows(t, a);
    }
    if forall i :: 0 <= i < |t.loops| ==> !Counts(t.loops[i]) {
      CountNone(t.loops, Counts);
    }
  }

  // ---- Shutdown ----

  /** How often accept can still return, and a connection still be admitted, once the flag is set. */
  function ReturnsLeft(pc: Pc): nat {
    match pc
    case Accepting => 1
    case Checked => 1
    case Refusing => 1
    case _ => 0
  }

  function AdmitsLeft(pc: Pc): nat {
    match pc
    case Checked => 1
    case Reserved => 1
    case _ => 0
  }

  /** The steps a loop has left once the flag is set. */
  function StepsLeft(pc: Pc): nat {
    match pc
    case Accepting => 2
    case Returned(_) => 1
    case Checked => 4
    case Refusing => 3
    case Reserved => 3
    case Releasing => 2
    case Ending => 1
    case Done => 0
  }

  predicate OfLoop(a: Action, i: nat) {
    match a
    case Return(j, _) => j == i
    case Check(j) => j == i
    case Reserve(j) => j == i
    case Refuse(j) => j == i
    case Spawn(j, _) => j == i
    case Release(j) => j == i
    case Finish(j) => j == i
    case _ => false
  }

  predicate IsReturn(a: Action, i: nat) {
    a.Return? && a.i == i
  }

  predicate IsAdmission(a: Action, i: nat) {
    a.Spawn? && a.ok && a.i == i
  }

  function Returns(run: seq<Action>, i: nat): nat {
    if run == [] then 0 else Returns(run[1..], i) + if IsReturn(run[0], i) then 1 else 0
  }

  function Admissions(run: seq<Action>, i: nat): nat {
    if run == [] then 0 else Admissions(run[1..], i) + if IsAdmission(run[0], i) then 1 else 0
  }

  function Steps(run: seq<Action>, i: nat): nat {
    if run == [] then 0 else Steps(run[1..], i) + if OfLoop(run[0], i) then 1 else 0
  }

  lemma ShutdownStep(s: Server, a: Action, i: nat)
    requires s.flag && Enabled(s, a) && i < |s.loops|
    ensures var t := Next(s, a);
            && t.flag && |t.loops| == |s.loops|
            && ReturnsLeft(t.loops[i]) + (if IsReturn(a, i) then 1 else 0) <= ReturnsLeft(s.loops[i])
            && AdmitsLeft(t.loops[i]) + (if IsAdmission(a, i) then 1 else 0) <= AdmitsLeft(s.loops[i])
            && StepsLeft(t.loops[i]) + (if OfLoop(a, i) then 1 else 0) <= StepsLeft(s.loops[i])
  {
  }

  /** Once the flag is set each loop admits at most one more connection, and ends after
    at most one more return of accept: it has at most four steps left. */
  lemma {:induction false} ShutdownIsPrompt(s: Server, run: seq<Action>, i: nat)
    requires s.flag && Runs(s, run) && i < |s.loops|
    ensures var t := After(s, run);
            && t.flag && |t.loops| == |s.loops|
            && Admissions(run, i) <= AdmitsLeft(s.loops[i]) <= 1
            && Returns(run, i) <= ReturnsLeft(s.loops[i]) <= 1
            && Steps(run, i) + StepsLeft(t.loops[i]) <= StepsLeft(s.loops[i]) <= 4
    decreases |run|
  {
    if run != [] {
      ShutdownStep(s, run[0], i);
      hide Next, Enabled;
      ShutdownIsPrompt(Next(s, run[0]), run[1..], i);
    }
  }

  /** A listener woken since the flag was set has a connection waiting, or its loop needs no more. */
  ghost predicate Wakeful(s: Server) {
    && |s.queues| == |s.loops| == |s.woken|
    && (s.wakers != [] ==> s.flag)
    && (forall i :: 0 <= i < |s.woken| && s.woken[i] ==> s.flag && (ReturnsLeft(s.loops[i]) == 0 || s.queues[i] > 0))
  }

  lemma StepKeepsWakeful(s: Server, a: Action)
    requires Wakeful(s) && Enabled(s, a)
    ensures Wakeful(Next(s, a))
  {
  }

  lemma {:induction false} RunKeepsWakeful(s: Server, run: seq<Action>)
    requires Wakeful(s) && Runs(s, run)
    ensures Wakeful(After(s, run))
    decreases |run|
  {
    if run != [] {
      hide Wakeful, Next, Enabled;
      StepKeepsWakeful(s, run[0]);
      RunKeepsWakeful(Next(s, run[0]), run[1..]);
    }
  }

  /** The step a loop takes by itself where it stands. */
  function OwnStep(s: Server, i: nat): Action
    requires i < |s.loops|
  {
    match s.loops[i]
    case Accepting => Return(i, true)
    case Returned(_) => Check(i)
    case Checked => Reserve(i)
    case Refusing => Refuse(i)
    case Reserved => Spawn(i, true)
    case Releasing => Release(i)
    case Ending => Finish(i)
    case Done => Finish(i)
  }

  /** No loop a wake-up reached stays blocked: until it is done it can take a step, whatever the others do. */
  lemma WokenLoopNeverBlocks(s: Server, run: seq<Action>, i: nat)
    requires Initial(s) && Runs(s, run)
    requires var t := After(s, run); i < |t.loops| && i < |t.woken| && t.woken[i] && t.loops[i] != Done
    ensures Enabled(After(s, run), OwnStep(After(s, run), i))
  {
    RunKeepsWakeful(s, run);
    hide After, Runs;
  }
}
