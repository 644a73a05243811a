/**
CDynamicOutputPin's block and unblock protocol: the block state under m_BlockStateLock, the
threads that use the pin, the threads that wait for it, and the events of those who block it.
 */
module DynamicPinSpec {
  datatype BlockState = NotBlocked | Pending | Blocked

  /** Handles and thread ids are non-zero; zero is NULL.  `signals` are the notify handles that
      SetEvent was called on, in order. */
  datatype Pin = Pin(state: BlockState, caller: nat, notify: nat, unblockEvent: bool, users: nat, signals: seq<nat>)

  datatype HResult = S_OK | S_FALSE | AlreadyBlocked | AlreadyBlockedOnThisThread

  function BlockStep(p: Pin, thread: nat, handle: nat): (Pin, HResult) {
    if !p.state.NotBlocked? then (p, if p.caller == thread then AlreadyBlockedOnThisThread else AlreadyBlocked)
    else
      var q := p.(state := Pending, caller := thread, notify := handle);
      (if p.users > 0 then q else Complete(q), S_OK)
  }

  /** BlockOutputPin: the pin is blocked and the requester told. */
  function Complete(p: Pin): Pin {
    p.(state := Blocked, unblockEvent := false, signals := p.signals + [p.notify], notify := 0)
  }

  function UnblockStep(p: Pin): (Pin, HResult) {
    if p.state.NotBlocked? then (p, S_FALSE)
    else
      (p.(state := NotBlocked, caller := 0, notify := 0, unblockEvent := true,
          signals := if p.notify != 0 then p.signals + [p.notify] else p.signals), S_OK)
  }

  function StopUsingStep(p: Pin): Pin
    requires p.users > 0
  {
    var q := p.(users := p.users - 1);
    if q.users == 0 && !p.state.NotBlocked? then Complete(q) else q
  }

  // ---------------------------------------------------------------------------------
  // Every interleaving
  // ---------------------------------------------------------------------------------

  /** Requests are numbered from one in the order they are accepted; a request's number stands
      for the duplicate of its caller's event. */
  datatype Sys = Sys(
    pin: Pin,
    users: multiset<nat>,   // threads between StartUsing and StopUsing, once for each pair
    waiters: set<nat>,      // threads in StartUsing that saw BLOCKED and wait
    accepted: nat)

  ghost predicate Init(s: Sys) {
    s == Sys(Pin(NotBlocked, 0, 0, true, 0, []), multiset{}, {}, 0)
  }

  ghost predicate Block(s: Sys, t: Sys, thread: nat) {
    && thread != 0
    && var (p, hr) := BlockStep(s.pin, thread, s.accepted + 1);
       t == s.(pin := p, accepted := s.accepted + if hr == S_OK then 1 else 0)
  }

  ghost predicate Unblock(s: Sys, t: Sys) {
    t == s.(pin := UnblockStep(s.pin).0)
  }

  /** A thread in StartUsing with the lock: it waits or becomes a user. */
  ghost predicate StartUsing(s: Sys, t: Sys, thread: nat) {
    && thread !in s.waiters
    && t == if s.pin.state.Blocked? then s.(waiters := s.waiters + {thread})
            else s.(pin := s.pin.(users := s.pin.users + 1), users := s.users + multiset{thread})
  }

  /** The unblock event lets a waiter go round the loop; the stop event sends it away. */
  ghost predicate Resume(s: Sys, t: Sys, thread: nat, stop: bool) {
    && thread in s.waiters && (stop || s.pin.unblockEvent)
    && t == s.(waiters := s.waiters - {thread})
  }

  ghost predicate StopUsing(s: Sys, t: Sys, thread: nat) {
    && thread in s.users && s.pin.users > 0
    && t == s.(pin := StopUsingStep(s.pin), users := s.users - multiset{thread})
  }

  ghost predicate Next(s: Sys, t: Sys) {
    || (exists thread :: Block(s, t, thread))
    || Unblock(s, t)
    || (exists thread :: StartUsing(s, t, thread))
    || (exists thread, stop :: Resume(s, t, thread, stop))
    || (exists thread :: StopUsing(s, t, thread))
  }

  /** The requests from one up to n, each once. */
  function Requests(n: nat): seq<nat> {
    if n == 0 then [] else Requests(n - 1) + [n]
  }

  ghost predicate Inv(s: Sys) {
    && s.pin.users == |s.users|
    && (s.pin.state.Blocked? ==> s.users == multiset{})
    && (s.pin.state.Pending? ==> s.users != multiset{})
    && (s.pin.unblockEvent <==> !s.pin.state.Blocked?)
    && (s.pin.caller == 0 <==> s.pin.state.NotBlocked?)
    && (s.pin.notify != 0 <==> s.pin.state.Pending?)
    && (s.pin.state.Pending? ==> s.pin.notify == s.accepted)
    && s.pin.signals == Requests(if s.pin.state.Pending? then s.accepted - 1 else s.accepted)
  }

  lemma BlockKeepsInv(s: Sys, t: Sys, thread: nat)
    requires Inv(s) && Block(s, t, thread)
    ensures Inv(t)
  {
  }

  lemma StartKeepsInv(s: Sys, t: Sys, thread: nat)
    requires Inv(s) && StartUsing(s, t, thread)
    ensures Inv(t)
  {
  }

  lemma StopKeepsInv(s: Sys, t: Sys, thread: nat)
    requires Inv(s) && StopUsing(s, t, thread)
    ensures Inv(t)
  {
    assert |t.users| == |s.users| - 1;
    assert t.users == multiset{} <==> |t.users| == 0;
    if t.users == multiset{} && !s.pin.state.NotBlocked? {
      assert s.pin.state.Pending? && s.pin.notify == s.accepted;
    }
  }

  lemma NextKeepsInv(s: Sys, t: Sys)
    requires Inv(s) && Next(s, t)
    ensures Inv(t)
  {
    if thread :| Block(s, t, thread) {
      BlockKeepsInv(s, t, thread);
    } else if thread :| StartUsing(s, t, thread) {
      StartKeepsInv(s, t, thread);
    } else if thread :| StopUsing(s, t, thread) {
      StopKeepsInv(s, t, thread);
    }
  }

  ghost predicate IsRun(run: seq<Sys>) {
    run != [] && Init(run[0]) && forall i :: 0 <= i < |run| - 1 ==> Next(run[i], run[i + 1])
  }

  lemma {:induction false} RunsKeepInv(run: seq<Sys>, i: nat)
    requires IsRun(run) && i < |run|
    ensures Inv(run[i])
  {
    if i > 0 {
      RunsKeepInv(run, i - 1);
      NextKeepsInv(run[i - 1], run[i]);
    }
  }

  lemma {:induction false} RequestsAt(n: nat, k: nat)
    requires k < n
    ensures |Requests(n)| == n && Requests(n)[k] == k + 1
  {
    if k < n - 1 {
      RequestsAt(n - 1, k);
    } else if n > 1 {
      RequestsAt(n - 1, 0);
    }
  }

  /** Every accepted request has had its event set exactly once, in the order of acceptance,
      but for a request that is still pending; and a request is pending only while some
      thread uses the pin. */
  lemma EachRequestSignalledOnce(run: seq<Sys>, i: nat, request: nat)
    requires IsRun(run) && i < |run| && 1 <= request <= run[i].accepted
    ensures var p := run[i].pin;
            if p.state.Pending? && request == p.notify then
              request !in p.signals && run[i].users != multiset{}
            else
              multiset(p.signals)[request] == 1
  {
    RunsKeepInv(run, i);
    var s := run[i];
    RequestsOnce(|s.pin.signals|, request);
    if s.pin.signals != [] {
      RequestsAt(if s.pin.state.Pending? then s.accepted - 1 else s.accepted, 0);
    }
  }

  lemma {:induction false} RequestsOnce(n: nat, request: nat)
    requires request > 0
    ensures multiset(Requests(n))[request] == if request <= n then 1 else 0
  {
    if n > 0 {
      RequestsOnce(n - 1, request);
    }
  }

  /** While the pin is blocked nobody uses it, and no one who waits is held back once it is
      unblocked. */
  lemma BlockedMeansUnused(run: seq<Sys>, i: nat)
    requires IsRun(run) && i < |run|
    ensures run[i].pin.state.Blocked? ==> run[i].users == multiset{} && run[i].pin.users == 0
    ensures !run[i].pin.state.Blocked? ==>
              forall thread :: thread in run[i].waiters ==> exists t :: Resume(run[i], t, thread, false)
  {
    RunsKeepInv(run, i);
    var s := run[i];
    if !s.pin.state.Blocked? {
      forall thread | thread in s.waiters
        ensures exists t :: Resume(s, t, thread, false)
      {
        assert Resume(s, s.(waiters := s.waiters - {thread}), thread, false);
      }
    }
  }
}

/** The pin itself: each method is a locked section. */
module DynamicPin {
  import opened DynamicPinSpec

  class DynamicOutputPin {
    var state: BlockState
    var caller: nat
    var notify: nat
    var unblockEvent: bool
    var users: nat
    var signals: seq<nat>

    function View(): Pin
      reads this
    {
      Pin(state, caller, notify, unblockEvent, users, signals)
    }

    /** What AssertValid checks, and that the unblock event is reset exactly while blocked. */
    predicate Valid()
      reads this
    {
      && (notify != 0 <==> state == Pending)
      && (caller == 0 <==> state == NotBlocked)
      && (state == Blocked ==> users == 0)
      && (state == Pending ==> users > 0)
      && (unblockEvent <==> state != Blocked)
    }

    constructor ()
      ensures Valid() && View() == Pin(NotBlocked, 0, 0, true, 0, [])
    {
      state, caller, notify, unblockEvent, users, signals := NotBlocked, 0, 0, true, 0, [];
    }

    method AsynchronousBlock(thread: nat, handle: nat) returns (hr: HResult)
      requires Valid() && thread != 0 && handle != 0
      modifies this
      ensures Valid() && (View(), hr) == BlockStep(old(View()), thread, handle)
      ensures hr == S_OK <==> old(state) == NotBlocked
      ensures hr == AlreadyBlockedOnThisThread <==> old(state) != NotBlocked && old(caller) == thread
      ensures hr == AlreadyBlocked <==> old(state) != NotBlocked && old(caller) != thread
      ensures hr != S_OK ==> View() == old(View())
      ensures hr == S_OK ==>
        View() == if users == 0 then Pin(Blocked, thread, 0, false, 0, old(signals) + [handle])
                  else Pin(Pending, thread, handle, true, old(users), old(signals))
    {
      if state != NotBlocked {
        if caller == thread {
          return AlreadyBlockedOnThisThread;
        }
        return AlreadyBlocked;
      }
      notify := handle;
      state := Pending;
      caller := thread;
      if users == 0 {
        BlockOutputPin();
      }
      hr := S_OK;
    }

    method BlockOutputPin()
      requires users == 0 && notify != 0 && state == Pending && caller != 0
      modifies this
      ensures Valid() && View() == Complete(old(View()))
    {
      unblockEvent := false;
      signals := signals + [notify];
      state := Blocked;
      notify := 0;
    }

    method Unblock() returns (hr: HResult)
      requires Valid()
      modifies this
      ensures Valid() && (View(), hr) == UnblockStep(old(View())) && state == NotBlocked && users == old(users)
      ensures hr == (if old(state) == NotBlocked then S_FALSE else S_OK)
      ensures signals == old(signals) + if old(state) == Pending then [old(notify)] else []
    {
      if state == NotBlocked {
        return S_FALSE;
      }
      unblockEvent := true;
      if notify != 0 {
        signals := signals + [notify];
      }
      state, caller, notify := NotBlocked, 0, 0;
      hr := S_OK;
    }

    /** StartUsing between two waits: in, or told to wait. */
    method TryStartUsing() returns (started: bool)
      requires Valid()
      modifies this
      ensures Valid() && started == (old(state) != Blocked)
      ensures View() == if started then old(View()).(users := old(users) + 1) else old(View())
    {
      started := state != Blocked;
      if started {
        users := users + 1;
      }
    }

    method StopUsing()
      requires Valid() && users > 0
      modifies this
      ensures Valid() && View() == StopUsingStep(old(View())) && users == old(users) - 1 && caller == old(caller)
      ensures state == if old(state) == Pending && users == 0 then Blocked else old(state)
      ensures signals == old(signals) + if old(state) == Pending && users == 0 then [old(notify)] else []
    {
      users := users - 1;
      if users == 0 && state != NotBlocked {
        BlockOutputPin();
      }
    }
  }
}
