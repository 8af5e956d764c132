/** The timed wait loop both the adapter and the STM driver use,
      tickstart := tick();
      while (poll() != SD_TRANSFER_OK) { if (tick() - tickstart >= timeout) return error; }
    modelled over a finite trace of what the loop observes, and the
    wait / issue / wait / wait sequence built from three such loops. */
module Polling {
  import opened Uint
  import opened SdioApi
  import opened Ticks

  /** One loop iteration: the state that was polled, then the tick read when that state
      was not ready (the state is polled before the clock is read). */
  datatype Poll = Poll(state: int, now: u32)

  /** Everything one wait loop observes: the tick read before the loop, then its iterations. */
  datatype WaitTrace = WaitTrace(start: u32, polls: seq<Poll>)

  /** How a wait loop ends: the state became ready at iteration `at`, the window expired at
      iteration `at`, or the trace ran out with the loop still spinning. */
  datatype WaitResult = Ready(at: nat) | Expired(at: nat) | Undecided {

    /** The number of iterations that went round the loop again, out of `n` observed. */
    function Passed(n: nat): nat {
      if Undecided? then n else at
    }
  }

  /** The iteration leaves the loop with a timeout. */
  predicate Fires(start: u32, timeout: u32, p: Poll) {
    p.state != SD_TRANSFER_OK && Elapsed(start, p.now) >= timeout
  }

  /** The iteration goes round the loop again. */
  predicate KeepsWaiting(start: u32, timeout: u32, p: Poll) {
    p.state != SD_TRANSFER_OK && Elapsed(start, p.now) < timeout
  }

  /** The loop, entered at iteration `i`. Its result is the first iteration from `i` on that
      leaves the loop, and says how it left; every iteration before it went round again. */
  function WaitFrom(start: u32, timeout: u32, polls: seq<Poll>, i: nat): (r: WaitResult)
    requires i <= |polls|
    ensures r.Ready? ==> i <= r.at < |polls| && polls[r.at].state == SD_TRANSFER_OK
    ensures r.Expired? ==> i <= r.at < |polls| && Fires(start, timeout, polls[r.at])
    ensures forall j | i <= j < r.Passed(|polls|) :: KeepsWaiting(start, timeout, polls[j])
    decreases |polls| - i
  {
    if i == |polls| then Undecided
    else if polls[i].state == SD_TRANSFER_OK then Ready(i)
    else if Elapsed(start, polls[i].now) >= timeout then Expired(i)
    else WaitFrom(start, timeout, polls, i + 1)
  }

  /** The whole loop over one trace. */
  function Wait(t: WaitTrace, timeout: u32): (r: WaitResult)
    ensures r.Ready? ==> r.at < |t.polls| && t.polls[r.at].state == SD_TRANSFER_OK
    ensures r.Expired? ==> r.at < |t.polls| && Fires(t.start, timeout, t.polls[r.at])
    ensures forall j | 0 <= j < r.Passed(|t.polls|) :: KeepsWaiting(t.start, timeout, t.polls[j])
  {
    WaitFrom(t.start, timeout, t.polls, 0)
  }

  /** The loop written as the C loop is written: poll, leave if ready, read the clock,
      leave if the window has elapsed, go round again. */
  method WaitLoop(t: WaitTrace, timeout: u32) returns (r: WaitResult)
    ensures r == Wait(t, timeout)
  {
    var i := 0;
    while i < |t.polls|
      invariant 0 <= i <= |t.polls|
      invariant WaitFrom(t.start, timeout, t.polls, i) == Wait(t, timeout)
    {
      var p := t.polls[i];
      if p.state == SD_TRANSFER_OK {
        return Ready(i);
      }
      if Elapsed(t.start, p.now) >= timeout {
        return Expired(i);
      }
      i := i + 1;
    }
    return Undecided;
  }

  /** Because the state is polled before the clock is read, a card that is ready on the first
      poll never times out, even with a zero timeout. */
  lemma ReadyOnFirstPollNeverTimesOut(t: WaitTrace, timeout: u32)
    requires |t.polls| > 0 && t.polls[0].state == SD_TRANSFER_OK
    ensures Wait(t, timeout) == Ready(0)
  {
  }

  /** With a zero timeout, a card that is busy on the first poll times out on it. */
  lemma ZeroTimeoutExpiresOnFirstBusyPoll(t: WaitTrace)
    requires |t.polls| > 0 && t.polls[0].state != SD_TRANSFER_OK
    ensures Wait(t, 0) == Expired(0)
  {
  }

  /** A card that answers anything but ready at every poll (`SD_TRANSFER_BUSY` or any other
      state) never lets the loop report ready: it has timed out, or is still spinning when the
      trace ends. */
  lemma AlwaysBusyNeverReady(t: WaitTrace, timeout: u32)
    requires forall j | 0 <= j < |t.polls| :: t.polls[j].state != SD_TRANSFER_OK
    ensures !Wait(t, timeout).Ready?
  {
  }

  /** The trace a loop observes when the tick counter shows real time modulo 2^32: the loop
      starts at real time `startTime` and iteration `j` polls `states[j]` at real time `times[j]`. */
  function Observe(startTime: nat, times: seq<nat>, states: seq<int>): (t: WaitTrace)
    requires |times| == |states|
    ensures |t.polls| == |times|
  {
    WaitTrace(ToU32(startTime),
      seq(|times|, j requires 0 <= j < |times| => Poll(states[j], ToU32(times[j]))))
  }

  /** Every reading lies less than one counter period after the start. */
  predicate WithinOnePeriod(startTime: nat, times: seq<nat>) {
    forall j | 0 <= j < |times| :: startTime <= times[j] < startTime + U32_LIMIT
  }

  /** A timeout fires only once the real window has elapsed, and never earlier, even when the
      counter wraps during the wait. */
  lemma {:induction false} TimeoutOnlyAfterWindow(startTime: nat, times: seq<nat>, states: seq<int>, timeout: u32)
    requires |times| == |states| && WithinOnePeriod(startTime, times)
    ensures var r := Wait(Observe(startTime, times, states), timeout);
      r.Expired? ==> states[r.at] != SD_TRANSFER_OK && times[r.at] - startTime >= timeout
    ensures var r := Wait(Observe(startTime, times, states), timeout);
      forall j | 0 <= j < r.Passed(|times|) :: states[j] != SD_TRANSFER_OK && times[j] - startTime < timeout
  {
    var t := Observe(startTime, times, states);
    var r := Wait(t, timeout);
    if r.Expired? {
      ElapsedMatchesRealTime(startTime, times[r.at]);
    }
    forall j | 0 <= j < r.Passed(|times|)
      ensures states[j] != SD_TRANSFER_OK && times[j] - startTime < timeout
    {
      ElapsedMatchesRealTime(startTime, times[j]);
      assert KeepsWaiting(t.start, timeout, t.polls[j]);
    }
  }

  /** A card that stays busy cannot keep the loop spinning past the window: if it is still
      busy at every poll up to one taken after the window elapsed (within one counter period),
      the loop has timed out by then. */
  lemma {:induction false} TimeoutByEndOfWindow(startTime: nat, times: seq<nat>, states: seq<int>, timeout: u32, k: nat)
    requires |times| == |states| && WithinOnePeriod(startTime, times)
    requires k < |times| && times[k] - startTime >= timeout
    requires forall j | 0 <= j <= k :: states[j] != SD_TRANSFER_OK
    ensures var r := Wait(Observe(startTime, times, states), timeout);
      r.Expired? && r.at <= k
  {
    var t := Observe(startTime, times, states);
    var r := Wait(t, timeout);
    ElapsedMatchesRealTime(startTime, times[k]);
    assert Fires(t.start, timeout, t.polls[k]);
  }

  /** Which way a transfer moves data: from the card, or to it. */
  datatype Direction = Reading | Writing

  /** The three waits of a DMA transfer. Each loop reads its own `tickstart`, so each one
      measures a fresh window. */
  datatype TransferWaits = TransferWaits(readyBefore: WaitTrace, pending: WaitTrace, readyAfter: WaitTrace)

  datatype Phase = ReadyBeforeIssue | TransferPending | ReadyAfterTransfer

  /** How the wait / issue / wait / wait sequence ends. */
  datatype Sequenced = Completed | IssueRejected | TimedOut(phase: Phase) | StillWaiting(phase: Phase) {

    /** The transfer was handed to the driver. */
    predicate Issued() {
      match this
      case TimedOut(p) => p != ReadyBeforeIssue
      case StillWaiting(p) => p != ReadyBeforeIssue
      case _ => true
    }
  }

  function TraceOf(w: TransferWaits, p: Phase): WaitTrace {
    match p
    case ReadyBeforeIssue => w.readyBefore
    case TransferPending => w.pending
    case ReadyAfterTransfer => w.readyAfter
  }

  /** The waits before `p` all saw the card ready, and the driver took the transfer if `p`
      comes after its issue: the sequence got as far as starting the wait `p`. */
  predicate Reached(w: TransferWaits, accepted: bool, timeout: u32, p: Phase) {
    match p
    case ReadyBeforeIssue => true
    case TransferPending => Wait(w.readyBefore, timeout).Ready? && accepted
    case ReadyAfterTransfer =>
      Wait(w.readyBefore, timeout).Ready? && accepted && Wait(w.pending, timeout).Ready?
  }

  /** Wait for the card, issue the transfer (`accepted` is whether the driver took it), wait
      for the transfer to finish, wait for the card again. The transfer is issued exactly when
      the first wait sees the card ready; the sequence completes exactly when the driver takes
      it and all three waits see ready; a wait is consulted only once every earlier step
      succeeded, and a timeout or an exhausted trace is reported against the wait that
      produced it. */
  function Sequence(w: TransferWaits, accepted: bool, timeout: u32): (r: Sequenced)
    ensures r.Issued() <==> Wait(w.readyBefore, timeout).Ready?
    ensures r == IssueRejected <==> Wait(w.readyBefore, timeout).Ready? && !accepted
    ensures r == Completed <==>
      && Wait(w.readyBefore, timeout).Ready? && accepted
      && Wait(w.pending, timeout).Ready? && Wait(w.readyAfter, timeout).Ready?
    ensures forall p: Phase :: r == TimedOut(p) <==>
      Reached(w, accepted, timeout, p) && Wait(TraceOf(w, p), timeout).Expired?
    ensures forall p: Phase :: r == StillWaiting(p) <==>
      Reached(w, accepted, timeout, p) && Wait(TraceOf(w, p), timeout).Undecided?
  {
    match Wait(w.readyBefore, timeout)
    case Expired(_) => TimedOut(ReadyBeforeIssue)
    case Undecided => StillWaiting(ReadyBeforeIssue)
    case Ready(_) =>
      if !accepted then IssueRejected
      else
        match Wait(w.pending, timeout)
        case Expired(_) => TimedOut(TransferPending)
        case Undecided => StillWaiting(TransferPending)
        case Ready(_) =>
          match Wait(w.readyAfter, timeout)
          case Expired(_) => TimedOut(ReadyAfterTransfer)
          case Undecided => StillWaiting(ReadyAfterTransfer)
          case Ready(_) => Completed
  }
}
