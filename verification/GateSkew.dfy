/**
 * The gate under a disconnect too many. A backup whose sweep was cancelled is cleaned up twice
 * (scheduler/scheduler.go:399-403), and each cleanup disconnects (database/dbops/dbops.go:21-28), so that the count goes
 * down once more than it went up and wraps around (database/database.go:192-199).
 */
module GateSkew {
  import opened Gate

  /** A step of a run: one of the protocol, or a disconnect by a thread that is no client any more. */
  datatype Act = Of(event: Event) | Stray

  ghost predicate ActsOk(acts: seq<Act>, n: nat) {
    forall k | 0 <= k < |acts| :: acts[k].Of? ==> acts[k].event.thread < n
  }

  function Apply(s: State, a: Act): State
    requires a.Of? ==> a.event.thread < |s.threads|
  {
    match a
    case Of(e) => Step(s, e.thread, e.action)
    case Stray => Down(s)
  }

  function RunActs(s: State, acts: seq<Act>): State
    requires ActsOk(acts, |s.threads|)
    decreases |acts|
  {
    if |acts| == 0 then s
    else
      var s' := Apply(s, acts[0]);
      RunActs(s', acts[1..])
  }

  function Strays(acts: seq<Act>): nat {
    if |acts| == 0 then 0 else One(acts[0] == Stray) + Strays(acts[1..])
  }

  /** A difference in 32 bits. */
  function Wrapped(x: int): int {
    if x < 0 then x + TWO_TO_32 else if x >= TWO_TO_32 then x - TWO_TO_32 else x
  }

  /** There is one token, and the count is behind the clients by the stray disconnects. */
  ghost predicate Skewed(s: State, d: nat) {
    && |s.threads| < TWO_TO_32 && d < TWO_TO_32
    && One(s.token) + Count(s.threads, HasToken) == 1
    && s.numClients == Wrapped(Count(s.threads, IsClient) - d)
  }

  // ----- every step keeps it -----------------------------------------------------------------------

  lemma {:induction false} CountFits(threads: seq<Pc>, f: Pc -> bool)
    ensures Count(threads, f) <= |threads|
  {
    if |threads| > 0 {
      CountBounds(threads, f, 0);
    }
  }

  lemma DownWraps(s: State)
    requires s.numClients < TWO_TO_32
    ensures Down(s).numClients == Wrapped(s.numClients - 1)
  {}

  /** A step moves one thread, the token with it, and the count in 32 bits. */
  lemma StepMoves(s: State, i: nat, a: Action)
    requires i < |s.threads| && One(s.token) + One(HasToken(s.threads[i])) <= 1 && s.numClients < TWO_TO_32
    ensures var s' := Step(s, i, a);
            && |s'.threads| == |s.threads| && s'.threads == s.threads[i := s'.threads[i]]
            && One(s'.token) + One(HasToken(s'.threads[i])) == One(s.token) + One(HasToken(s.threads[i]))
            && s'.numClients == Wrapped(s.numClients + One(IsClient(s'.threads[i])) - One(IsClient(s.threads[i])))
  {
    DownWraps(s);
  }

  lemma StepKeepsSkew(s: State, i: nat, a: Action, d: nat)
    requires Skewed(s, d) && i < |s.threads|
    ensures Skewed(Step(s, i, a), d) && |Step(s, i, a).threads| == |s.threads|
  {
    var s' := Step(s, i, a);
    CountBounds(s.threads, HasToken, i);
    CountFits(s.threads, IsClient);
    StepMoves(s, i, a);
    CountUpdate(s.threads, HasToken, i, s'.threads[i]);
    CountUpdate(s.threads, IsClient, i, s'.threads[i]);
    CountFits(s'.threads, IsClient);
  }

  lemma ApplyKeepsSkew(s: State, a: Act, d: nat)
    requires Skewed(s, d) && (a.Of? ==> a.event.thread < |s.threads|) && d + One(a == Stray) < TWO_TO_32
    ensures Skewed(Apply(s, a), d + One(a == Stray)) && |Apply(s, a).threads| == |s.threads|
  {
    if a.Of? {
      StepKeepsSkew(s, a.event.thread, a.event.action, d);
    } else {
      CountFits(s.threads, IsClient);
      DownWraps(s);
    }
  }

  lemma {:induction false} RunKeepsSkew(s: State, acts: seq<Act>, d: nat)
    requires Skewed(s, d) && ActsOk(acts, |s.threads|) && d + Strays(acts) < TWO_TO_32
    ensures Skewed(RunActs(s, acts), d + Strays(acts)) && |RunActs(s, acts).threads| == |s.threads|
    decreases |acts|
  {
    if |acts| > 0 {
      ApplyKeepsSkew(s, acts[0], d);
      RunKeepsSkew(Apply(s, acts[0]), acts[1..], d + One(acts[0] == Stray));
    }
  }

  // ----- what a close then meets -------------------------------------------------------------------

  /**
   * In every interleaving with fewer than 2^32 stray disconnects: there is one token, and a polling `CloseDb` goes on
   * exactly when there are as many clients as there were stray disconnects, instead of none.
   */
  lemma {:induction false} SkewedGate(n: nat, acts: seq<Act>, i: nat)
    requires n < TWO_TO_32 && ActsOk(acts, n) && i < n && Strays(acts) < TWO_TO_32
    ensures var s := RunActs(Start(n), acts);
            && |s.threads| == n && One(s.token) + Count(s.threads, HasToken) == 1
            && s.numClients == Wrapped(Count(s.threads, IsClient) - Strays(acts))
            && (s.threads[i].ClosePolling? ==>
                  (Step(s, i, Poll).threads[i].CloseEmpty? <==> Count(s.threads, IsClient) == Strays(acts)))
  {
    CountNone(Start(n).threads, HasToken);
    CountNone(Start(n).threads, IsClient);
    RunKeepsSkew(Start(n), acts, 0);
    CountFits(RunActs(Start(n), acts).threads, IsClient);
  }

  /** A close that polls behind a count that has wrapped around. */
  ghost predicate StuckAt(s: State, i: nat, d: nat) {
    i < |s.threads| && s.threads[i].ClosePolling? && Skewed(s, d) && Count(s.threads, IsClient) < d
  }

  /** The polling thread has the token, so no other can become a client. */
  lemma StuckStep(s: State, i: nat, j: nat, a: Action, d: nat)
    requires StuckAt(s, i, d) && j < |s.threads|
    ensures StuckAt(Step(s, j, a), i, d)
  {
    var s' := Step(s, j, a);
    StepKeepsSkew(s, j, a, d);
    CountBounds(s.threads, HasToken, i);
    CountBounds(s.threads, HasToken, j);
    StepMoves(s, j, a);
    CountUpdate(s.threads, IsClient, j, s'.threads[j]);
  }

  /**
   * With fewer clients than stray disconnects, for instance with none and one, a `CloseDb` that has begun to poll never
   * returns, whatever the other threads do: it keeps the token, so that the database can never be opened again.
   */
  lemma {:induction false} PollsForEver(s: State, i: nat, d: nat, acts: seq<Act>)
    requires StuckAt(s, i, d) && ActsOk(acts, |s.threads|) && d + Strays(acts) < TWO_TO_32
    ensures var s' := RunActs(s, acts);
            && |s'.threads| == |s.threads| && s'.threads[i].ClosePolling? && !s'.token
            && forall j | 0 <= j < |s'.threads| && j != i :: !HasToken(s'.threads[j])
    decreases |acts|
  {
    if |acts| > 0 {
      ApplyKeepsSkew(s, acts[0], d);
      if acts[0].Of? {
        StuckStep(s, i, acts[0].event.thread, acts[0].event.action, d);
      }
      PollsForEver(Apply(s, acts[0]), i, d + One(acts[0] == Stray), acts[1..]);
    } else {
      CountBounds(s.threads, HasToken, i);
    }
  }

  /** The second cleanup: one stray disconnect, and then the close it makes. */
  const SecondCleanup: seq<Act> := [Stray, Of(Event(0, CallClose(false))), Of(Event(0, TakeToken))]

  lemma {:induction false} CleanupPolls(s: State)
    requires |s.threads| > 0 && s.threads[0] == Idle && s.token
    ensures ActsOk(SecondCleanup, |s.threads|)
    ensures RunActs(s, SecondCleanup) == State(false, Down(s).numClients, s.threads[0 := ClosePolling(false)])
  {
    var s1 := Down(s);
    var s2 := Step(s1, 0, CallClose(false));
    assert SecondCleanup[1..] == [SecondCleanup[1], SecondCleanup[2]] && SecondCleanup[1..][1..] == [SecondCleanup[2]];
    assert RunActs(s2, [SecondCleanup[2]]) == Step(s2, 0, TakeToken);
    assert RunActs(s1, SecondCleanup[1..]) == Step(s2, 0, TakeToken);
  }

  /** With no client left, the close of the second cleanup is stuck. */
  lemma {:induction false} SecondCleanupIsStuck(s: State)
    requires Skewed(s, 0) && |s.threads| > 0 && s.threads[0] == Idle && s.token && s.numClients == 0
    ensures ActsOk(SecondCleanup, |s.threads|) && StuckAt(RunActs(s, SecondCleanup), 0, 1)
  {
    CleanupPolls(s);
    DownWraps(s);
    CountFits(s.threads, IsClient);
    CountUpdate(s.threads, IsClient, 0, ClosePolling(false));
    CountUpdate(s.threads, HasToken, 0, ClosePolling(false));
  }

  /** With one client left, that close returns although the client is still connected. */
  lemma {:induction false} SecondCleanupIsEarly(s: State)
    requires Skewed(s, 0) && |s.threads| > 0 && s.threads[0] == Idle && s.token && s.numClients == 1
    ensures ActsOk(SecondCleanup, |s.threads|)
    ensures var s' := Step(RunActs(s, SecondCleanup), 0, Poll);
            s'.threads[0] == CloseEmpty(false) && Count(s'.threads, IsClient) == 1
  {
    CleanupPolls(s);
    DownWraps(s);
    CountFits(s.threads, IsClient);
    CountUpdate(s.threads, IsClient, 0, ClosePolling(false));
    CountUpdate(s.threads[0 := ClosePolling(false)], IsClient, 0, CloseEmpty(false));
  }
}
