/**
 * The gate of one registered database (database/database.go:144-167, 192-199, 226-268; utils/lock.go): a lock token in a
 * one-slot channel and a count of connected clients, used by any number of threads in every interleaving.
 */
module Gate {
  const TWO_TO_32 := 0x1_0000_0000

  // ----- the parts, as one thread sees them ---------------------------------------------------------

  /** `MutexWithTimeout`: unlocked exactly when the channel is full. */
  class MutexWithTimeout {
    var full: bool

    constructor ()
      ensures full
    {
      full := true;
    }

    /** Taking the token; when there is none the caller waits, here until its timeout. */
    method GetLockWithTimeout() returns (ok: bool)
      modifies this
      ensures ok == old(full) && !full
    {
      ok := full;
      full := false;
    }

    /** Putting the token back; a full channel is left as it is, so this can be repeated. */
    method ReleaseLock()
      modifies this
      ensures full
    {
      if !full {
        full := true;
      }
    }
  }

  /** `DbAccess` */
  class DbAccess {
    const mutex: MutexWithTimeout
    var numClients: nat

    constructor ()
      ensures fresh(mutex) && mutex.full && numClients == 0
    {
      mutex := new MutexWithTimeout();
      numClients := 0;
    }

    /** `atomic.AddUint32`; adding the complement of zero subtracts one. */
    method Add(delta: nat)
      requires numClients < TWO_TO_32
      modifies this
      ensures numClients == (old(numClients) + delta) % TWO_TO_32
    {
      numClients := (numClients + delta) % TWO_TO_32;
    }

    /** The gate as the protocol sees it, beside the places of all threads. */
    ghost function Seen(threads: seq<Pc>): State
      reads this, mutex
    {
      State(mutex.full, numClients, threads)
    }

    /**
     * `OpenDb` on a registered database: it counts a client exactly if it succeeds, and always gives the token back. For
     * any thread that is idle it is the undisturbed open of the protocol.
     */
    method OpenDb(fileOpens: bool, ghost threads: seq<Pc>, ghost i: nat) returns (ok: bool)
      requires numClients < TWO_TO_32 - 1 && i < |threads| && threads[i] == Idle
      modifies this, mutex
      ensures ok == (old(mutex.full) && fileOpens)
      ensures numClients == old(numClients) + (if ok then 1 else 0) && mutex.full == old(mutex.full)
      ensures Seen(threads[i := if ok then Connected else Idle]) == OpenAlone(old(Seen(threads)), i, fileOpens)
    {
      OpenAloneIs(Seen(threads), i, fileOpens);
      var got := mutex.GetLockWithTimeout();
      if !got {
        return false;
      }
      Add(1);
      if !fileOpens {
        Add(TWO_TO_32 - 1);
      }
      mutex.ReleaseLock();
      return fileOpens;
    }

    /** `DisconnectFromDb`: without a client the count would wrap around. It is the protocol's undisturbed disconnect. */
    method DisconnectFromDb(ghost threads: seq<Pc>, ghost i: nat)
      requires numClients < TWO_TO_32 && i < |threads| && threads[i] == Connected
      modifies this
      ensures numClients == if old(numClients) > 0 then old(numClients) - 1 else TWO_TO_32 - 1
      ensures Seen(threads[i := Idle]) == DisconnectAlone(old(Seen(threads)), i)
    {
      Add(TWO_TO_32 - 1);
    }
  }

  // ----- the protocol -------------------------------------------------------------------------------

  /** Where a thread stands in `OpenDb`, `DisconnectFromDb`, `CloseDb` and `UnlockDb`. */
  datatype Pc =
    | Idle
    | OpenWaiting | OpenHolding | OpenCounted | OpenDone | OpenBroken | OpenUncounted
    | Connected | Disconnecting
    | CloseWaiting(release: bool) | ClosePolling(release: bool) | CloseEmpty(release: bool) | ClosedHolding

  datatype State = State(token: bool, numClients: nat, threads: seq<Pc>)

  /** A thread's next atomic step; the flag answers what its environment decides. */
  datatype Action =
    | CallOpen | CallClose(release: bool)
    | TakeToken | TimeOut
    | CountUp | FileOpened(ok: bool) | CountDown | Release
    | Disconnect | CloseHandle
    | Poll | LeaveClose | Unlock

  function Move(s: State, i: nat, pc: Pc): State
    requires i < |s.threads|
  {
    s.(threads := s.threads[i := pc])
  }

  function Up(s: State): State {
    s.(numClients := (s.numClients + 1) % TWO_TO_32)
  }

  function Down(s: State): State {
    s.(numClients := (s.numClients + TWO_TO_32 - 1) % TWO_TO_32)
  }

  /** One atomic step of thread `i`; an action that does not fit its place changes nothing. */
  function Step(s: State, i: nat, a: Action): State
    requires i < |s.threads|
  {
    match s.threads[i]
    case Idle =>
      if a == CallOpen then Move(s, i, OpenWaiting)
      else if a.CallClose? then Move(s, i, CloseWaiting(a.release)) else s
    case OpenWaiting =>
      if a == TakeToken && s.token then Move(s.(token := false), i, OpenHolding)
      else if a == TimeOut then Move(s, i, Idle) else s
    case OpenHolding => if a == CountUp then Move(Up(s), i, OpenCounted) else s
    case OpenCounted => if a.FileOpened? then Move(s, i, if a.ok then OpenDone else OpenBroken) else s
    case OpenDone => if a == Release then Move(s.(token := true), i, Connected) else s
    case OpenBroken => if a == CountDown then Move(Down(s), i, OpenUncounted) else s
    case OpenUncounted => if a == Release then Move(s.(token := true), i, Idle) else s
    case Connected => if a == Disconnect then Move(Down(s), i, Disconnecting) else s
    case Disconnecting => if a == CloseHandle then Move(s, i, Idle) else s
    case CloseWaiting(release) => if a == TakeToken && s.token then Move(s.(token := false), i, ClosePolling(release)) else s
    case ClosePolling(release) => if a == Poll && s.numClients == 0 then Move(s, i, CloseEmpty(release)) else s
    case CloseEmpty(release) =>
      if a != LeaveClose then s
      else if release then Move(s.(token := true), i, Idle) else Move(s, i, ClosedHolding)
    case ClosedHolding => if a == Unlock then Move(s.(token := true), i, Idle) else s
  }

  // ----- counting threads ---------------------------------------------------------------------------

  /** The thread has the token. */
  predicate HasToken(pc: Pc) {
    match pc
    case OpenHolding => true
    case OpenCounted => true
    case OpenDone => true
    case OpenBroken => true
    case OpenUncounted => true
    case ClosePolling(_) => true
    case CloseEmpty(_) => true
    case ClosedHolding => true
    case _ => false
  }

  /** The thread is a client: opened, or opening and counted, and not yet disconnecting. */
  predicate IsClient(pc: Pc) {
    pc == OpenCounted || pc == OpenDone || pc == OpenBroken || pc == Connected
  }

  function One(b: bool): nat {
    if b then 1 else 0
  }

  function Count(threads: seq<Pc>, f: Pc -> bool): nat {
    if |threads| == 0 then 0 else Count(threads[..|threads| - 1], f) + One(f(threads[|threads| - 1]))
  }

  lemma {:induction false} CountUpdate(threads: seq<Pc>, f: Pc -> bool, i: nat, pc: Pc)
    requires i < |threads|
    ensures Count(threads[i := pc], f) == Count(threads, f) - One(f(threads[i])) + One(f(pc))
  {
    var n := |threads| - 1;
    if i < n {
      CountUpdate(threads[..n], f, i, pc);
      assert threads[i := pc][..n] == threads[..n][i := pc];
    } else {
      assert threads[i := pc][..n] == threads[..n];
    }
  }

  lemma {:induction false} CountBounds(threads: seq<Pc>, f: Pc -> bool, i: nat)
    requires i < |threads|
    ensures One(f(threads[i])) <= Count(threads, f) <= |threads|
    ensures forall j | 0 <= j < |threads| && j != i && f(threads[i]) && f(threads[j]) :: Count(threads, f) >= 2
  {
    var n := |threads| - 1;
    if i < n {
      CountBounds(threads[..n], f, i);
    } else if n > 0 {
      forall j | 0 <= j < n ensures One(f(threads[j])) <= Count(threads[..n], f) <= n {
        CountBounds(threads[..n], f, j);
      }
      assert Count(threads[..n], f) <= n by {
        CountBounds(threads[..n], f, 0);
      }
    }
  }

  // ----- the invariant ------------------------------------------------------------------------------

  /** There is one token, and the count is the number of clients. */
  ghost predicate Inv(s: State) {
    && |s.threads| < TWO_TO_32
    && One(s.token) + Count(s.threads, HasToken) == 1
    && s.numClients == Count(s.threads, IsClient)
    && (forall i | 0 <= i < |s.threads| && (s.threads[i].CloseEmpty? || s.threads[i].ClosedHolding?) :: s.numClients == 0)
  }

  /** A thread with the token is the only one, so no other can count itself in. */
  lemma OneHolder(s: State, i: nat)
    requires Inv(s) && i < |s.threads| && HasToken(s.threads[i])
    ensures !s.token && forall j | 0 <= j < |s.threads| && j != i :: !HasToken(s.threads[j])
  {
    CountBounds(s.threads, HasToken, i);
  }

  /** A step moves one thread, and moves the token and the count with it. */
  lemma StepDelta(s: State, i: nat, a: Action)
    requires i < |s.threads| && One(s.token) + One(HasToken(s.threads[i])) <= 1
    requires One(IsClient(s.threads[i])) <= s.numClients < TWO_TO_32 - 1 + One(IsClient(s.threads[i]))
    ensures var s' := Step(s, i, a);
            && |s'.threads| == |s.threads| && s'.threads == s.threads[i := s'.threads[i]]
            && One(s'.token) + One(HasToken(s'.threads[i])) == One(s.token) + One(HasToken(s.threads[i]))
            && s'.numClients == s.numClients - One(IsClient(s.threads[i])) + One(IsClient(s'.threads[i]))
  {}

  lemma StepCounts(s: State, i: nat, a: Action)
    requires Inv(s) && i < |s.threads|
    ensures var s' := Step(s, i, a);
            && |s'.threads| == |s.threads| && s'.threads == s.threads[i := s'.threads[i]]
            && One(s'.token) + Count(s'.threads, HasToken) == 1
            && s'.numClients == Count(s'.threads, IsClient)
  {
    var s' := Step(s, i, a);
    CountBounds(s.threads, IsClient, i);
    CountBounds(s.threads, HasToken, i);
    CountUpdate(s.threads, IsClient, i, Connected);
    CountBounds(s.threads[i := Connected], IsClient, i);
    StepDelta(s, i, a);
    CountUpdate(s.threads, HasToken, i, s'.threads[i]);
    CountUpdate(s.threads, IsClient, i, s'.threads[i]);
  }

  lemma StepKeepsInv(s: State, i: nat, a: Action)
    requires Inv(s) && i < |s.threads|
    ensures Inv(Step(s, i, a))
  {
    var s' := Step(s, i, a);
    StepCounts(s, i, a);
    forall j | 0 <= j < |s'.threads| && (s'.threads[j].CloseEmpty? || s'.threads[j].ClosedHolding?) ensures s'.numClients == 0 {
      if j != i {
        OneHolder(s, j);
        CountBounds(s.threads, IsClient, i);
      }
    }
  }

  // ----- runs ---------------------------------------------------------------------------------------

  /** A step of a run: which thread, and what it does. */
  datatype Event = Event(thread: nat, action: Action)

  function Run(s: State, events: seq<Event>): State
    requires forall k | 0 <= k < |events| :: events[k].thread < |s.threads|
    decreases |events|
  {
    if |events| == 0 then s
    else
      var s' := Step(s, events[0].thread, events[0].action);
      Run(s', events[1..])
  }

  /** A registered database that nobody uses. */
  function Start(threads: nat): State {
    State(true, 0, seq(threads, _ => Idle))
  }

  lemma {:induction false} CountNone(threads: seq<Pc>, f: Pc -> bool)
    requires forall i | 0 <= i < |threads| :: !f(threads[i])
    ensures Count(threads, f) == 0
  {
    if |threads| > 0 {
      CountNone(threads[..|threads| - 1], f);
    }
  }

  lemma {:induction false} RunKeepsInv(s: State, events: seq<Event>)
    requires Inv(s) && forall k | 0 <= k < |events| :: events[k].thread < |s.threads|
    ensures Inv(Run(s, events)) && |Run(s, events).threads| == |s.threads|
    decreases |events|
  {
    if |events| > 0 {
      StepCounts(s, events[0].thread, events[0].action);
      StepKeepsInv(s, events[0].thread, events[0].action);
      RunKeepsInv(Step(s, events[0].thread, events[0].action), events[1..]);
    }
  }

  /**
   * The gate in every interleaving of any number of threads: the count is the number of clients that are opened or being
   * opened and have not begun to disconnect; and from the return of a `CloseDb` that keeps the lock until its
   * `UnlockDb` the count is zero, there is no client, and no `OpenDb` is past the gate.
   */
  lemma {:induction false} GateInvariant(n: nat, events: seq<Event>, i: nat)
    requires n < TWO_TO_32 && forall k | 0 <= k < |events| :: events[k].thread < n
    requires i < n
    ensures var s := Run(Start(n), events);
            && |s.threads| == n && s.numClients == Count(s.threads, IsClient) <= n
            && (s.threads[i] == ClosedHolding ==>
                  && s.numClients == 0 && !s.token
                  && forall j | 0 <= j < n :: !IsClient(s.threads[j]) && (j != i ==> !HasToken(s.threads[j])))
  {
    CountNone(Start(n).threads, HasToken);
    CountNone(Start(n).threads, IsClient);
    RunKeepsInv(Start(n), events);
    var s := Run(Start(n), events);
    CountBounds(s.threads, IsClient, i);
    if s.threads[i] == ClosedHolding {
      OneHolder(s, i);
      forall j | 0 <= j < n ensures !IsClient(s.threads[j]) {
        CountBounds(s.threads, IsClient, j);
      }
    }
  }

  /** While the lock is kept, no step of another thread gets past the gate. */
  lemma NobodyEnters(s: State, i: nat, j: nat, a: Action)
    requires Inv(s) && i < |s.threads| && j < |s.threads| && i != j && s.threads[i] == ClosedHolding
    ensures var s' := Step(s, j, a); s'.threads[i] == ClosedHolding && !HasToken(s'.threads[j]) && s'.numClients == 0 && !s'.token
  {
    OneHolder(s, i);
    StepKeepsInv(s, j, a);
  }

  /** The thread has the database open: from the opening of the file until its handle is closed. */
  predicate HasHandle(pc: Pc) {
    pc == OpenDone || pc == Connected || pc == Disconnecting
  }

  /**
   * The count reaches zero before the last handle is closed. In every run, while `CloseDb` has returned and holds the
   * lock, the threads that still have the database open are exactly those between their decrement and their close.
   */
  lemma {:induction false} HandleOutlivesCount(n: nat, events: seq<Event>, i: nat, j: nat)
    requires n < TWO_TO_32 && forall k | 0 <= k < |events| :: events[k].thread < n
    requires i < n && j < n && |Run(Start(n), events).threads| == n && Run(Start(n), events).threads[i] == ClosedHolding
    ensures HasHandle(Run(Start(n), events).threads[j]) <==> Run(Start(n), events).threads[j] == Disconnecting
  {
    GateInvariant(n, events, i);
  }

  /** And there are such runs: a client that has disconnected but not closed, and a `CloseDb` that has returned. */
  lemma {:induction false} OpenHandleAfterClose() returns (events: seq<Event>)
    ensures (forall k | 0 <= k < |events| :: events[k].thread < 2)
    ensures Run(Start(2), events).threads == [Disconnecting, ClosedHolding]
  {
    events := PollingRun();
    events := Extend(events, State(false, 0, [Disconnecting, ClosePolling(false)]), Event(1, Poll), State(false, 0, [Disconnecting, CloseEmpty(false)]));
    events := Extend(events, State(false, 0, [Disconnecting, CloseEmpty(false)]), Event(1, LeaveClose), State(false, 0, [Disconnecting, ClosedHolding]));
  }

  lemma {:induction false} PollingRun() returns (events: seq<Event>)
    ensures (forall k | 0 <= k < |events| :: events[k].thread < 2)
    ensures Run(Start(2), events) == State(false, 0, [Disconnecting, ClosePolling(false)])
  {
    events := ConnectedRun();
    events := Extend(events, State(true, 1, [Connected, Idle]), Event(0, Disconnect), State(true, 0, [Disconnecting, Idle]));
    events := Extend(events, State(true, 0, [Disconnecting, Idle]), Event(1, CallClose(false)), State(true, 0, [Disconnecting, CloseWaiting(false)]));
    events := Extend(events, State(true, 0, [Disconnecting, CloseWaiting(false)]), Event(1, TakeToken),
                     State(false, 0, [Disconnecting, ClosePolling(false)]));
  }

  /** A run that ends with one client. */
  lemma {:induction false} ConnectedRun() returns (events: seq<Event>)
    ensures (forall k | 0 <= k < |events| :: events[k].thread < 2)
    ensures Run(Start(2), events) == State(true, 1, [Connected, Idle])
  {
    events := CountedRun();
    events := Extend(events, State(false, 1, [OpenCounted, Idle]), Event(0, FileOpened(true)), State(false, 1, [OpenDone, Idle]));
    events := Extend(events, State(false, 1, [OpenDone, Idle]), Event(0, Release), State(true, 1, [Connected, Idle]));
  }

  lemma {:induction false} CountedRun() returns (events: seq<Event>)
    ensures (forall k | 0 <= k < |events| :: events[k].thread < 2)
    ensures Run(Start(2), events) == State(false, 1, [OpenCounted, Idle])
  {
    assert Start(2).threads == [Idle, Idle];
    events := Extend([], Start(2), Event(0, CallOpen), State(true, 0, [OpenWaiting, Idle]));
    events := Extend(events, State(true, 0, [OpenWaiting, Idle]), Event(0, TakeToken), State(false, 0, [OpenHolding, Idle]));
    events := Extend(events, State(false, 0, [OpenHolding, Idle]), Event(0, CountUp), State(false, 1, [OpenCounted, Idle]));
  }

  /** One more step at the end of a run. */
  lemma {:induction false} Extend(events: seq<Event>, s: State, e: Event, s': State) returns (more: seq<Event>)
    requires (forall k | 0 <= k < |events| :: events[k].thread < 2) && e.thread < 2
    requires Run(Start(2), events) == s && |s.threads| == 2 && Step(s, e.thread, e.action) == s'
    ensures (forall k | 0 <= k < |more| :: more[k].thread < 2) && Run(Start(2), more) == s'
  {
    more := events + [e];
    RunSnoc(Start(2), events, e);
  }

  lemma {:induction false} RunSnoc(s: State, events: seq<Event>, e: Event)
    requires e.thread < |s.threads| && forall k | 0 <= k < |events| :: events[k].thread < |s.threads|
    ensures |Run(s, events).threads| == |s.threads| && Run(s, events + [e]) == Step(Run(s, events), e.thread, e.action)
    decreases |events|
  {
    var all := events + [e];
    if |events| > 0 {
      var s' := Step(s, events[0].thread, events[0].action);
      assert all[1..] == events[1..] + [e] && all[0] == events[0];
      StepKeepsLength(s, events[0].thread, events[0].action);
      RunSnoc(s', events[1..], e);
    } else {
      assert all[1..] == [];
      StepKeepsLength(s, e.thread, e.action);
    }
  }

  lemma StepKeepsLength(s: State, i: nat, a: Action)
    requires i < |s.threads|
    ensures |Step(s, i, a).threads| == |s.threads|
  {}

  // ----- the methods are runs of the protocol ---------------------------------------------------------

  /** A thread that opens the database undisturbed; without a token it waits until its timeout. */
  function OpenAlone(s: State, i: nat, fileOpens: bool): State
    requires i < |s.threads|
  {
    var wait := Step(s, i, CallOpen);
    if !s.token then Step(wait, i, TimeOut)
    else
      var tried := Step(Step(Step(wait, i, TakeToken), i, CountUp), i, FileOpened(fileOpens));
      if fileOpens then Step(tried, i, Release) else Step(Step(tried, i, CountDown), i, Release)
  }

  function DisconnectAlone(s: State, i: nat): State
    requires i < |s.threads|
  {
    Step(Step(s, i, Disconnect), i, CloseHandle)
  }

  /** What an undisturbed open comes to. */
  lemma OpenAloneIs(s: State, i: nat, fileOpens: bool)
    requires i < |s.threads| && s.threads[i] == Idle && s.numClients < TWO_TO_32 - 1
    ensures var ok := s.token && fileOpens;
            OpenAlone(s, i, fileOpens) ==
            State(s.token, s.numClients + (if ok then 1 else 0), s.threads[i := if ok then Connected else Idle])
  {
    assert s.threads[i := Idle] == s.threads;
  }

  /** A thread that closes the database undisturbed, with no client left. */
  function CloseAlone(s: State, i: nat, release: bool): State
    requires i < |s.threads|
  {
    Step(Step(Step(Step(s, i, CallClose(release)), i, TakeToken), i, Poll), i, LeaveClose)
  }

  /**
   * A close that is to release the lock ends with the token back and its thread idle; one that is to keep it ends holding
   * the token, and the unlock that follows gives it back.
   */
  lemma CloseAloneIs(s: State, i: nat)
    requires i < |s.threads| && s.threads[i] == Idle && s.token && s.numClients == 0
    ensures CloseAlone(s, i, true) == s
    ensures CloseAlone(s, i, false) == State(false, 0, s.threads[i := ClosedHolding])
    ensures Step(CloseAlone(s, i, false), i, Unlock) == s
  {
    assert s.threads[i := Idle] == s.threads;
    CloseSteps(s, i, true);
    CloseSteps(s, i, false);
  }

  lemma CloseSteps(s: State, i: nat, release: bool)
    requires i < |s.threads| && s.threads[i] == Idle && s.token && s.numClients == 0
    ensures CloseAlone(s, i, release) == State(release, 0, s.threads[i := if release then Idle else ClosedHolding])
  {
    assert Step(s, i, CallClose(release)) == Move(s, i, CloseWaiting(release));
  }

  /** An undisturbed disconnect gives up one client and leaves the lock alone. */
  lemma DisconnectAloneIs(s: State, i: nat)
    requires i < |s.threads| && s.threads[i] == Connected && 0 < s.numClients < TWO_TO_32
    ensures DisconnectAlone(s, i) == State(s.token, s.numClients - 1, s.threads[i := Idle])
  {}

  /** Who waits for the token gets it by taking it only, gives up by its timeout, and a close goes on polling until it looks. */
  lemma WaitersWait(s: State, i: nat, a: Action)
    requires i < |s.threads|
    ensures s.threads[i] == OpenWaiting && a != TakeToken ==> Step(s, i, a) == if a == TimeOut then Move(s, i, Idle) else s
    ensures s.threads[i].CloseWaiting? && a != TakeToken ==> Step(s, i, a) == s
    ensures s.threads[i].ClosePolling? && a != Poll ==> Step(s, i, a) == s
    ensures s.threads[i] == ClosedHolding && a != Unlock ==> Step(s, i, a) == s
  {}
}
