// The one path of every write command: simulate, journal, send once, journal the hash, wait, decide.
module SendPath {
  import opened Journals
  import opened Outcomes

  type Hash = int

  datatype ReceiptStatus = Success | Reverted

  datatype Entry =
    | Simulated
    | Broadcast(hash: Hash)
    | OutcomeOf(hash: Hash, result: Result<ReceiptStatus, ()>)

  /** What a call does that outlives it, and the start of its wait. */
  datatype Event = Journalled(entry: Entry) | Sent(hash: Hash) | WaitStarted(hash: Hash)

  datatype Simulation = Permitted | ActionRefused | SimulationFailed | RpcUnavailable

  /**
   * What `signer.send` comes to. `cast` may broadcast the transaction and still fail, or answer with
   * no hash: then the signer throws, although Arc has the transaction.
   */
  datatype Sending = Returned(hash: Hash) | SentButLost(hash: Hash) | NotSent

  datatype Outcome = Mined(status: ReceiptStatus) | StillPending(waitedSeconds: int)

  datatype SendError =
    | Refusal(simulation: Simulation) | JournalUnwritable | SignerFailed | Pending | RevertedOnChain | Killed

  /** One pass of the wait: what the clock showed, and how long a sleep it asked for. */
  datatype Nap = Nap(elapsed: int, ms: int)

  /** The world one call meets: `killed` is how many of its effects the process lives to see. */
  datatype Call = Call(
    simulation: Simulation, sending: Sending, timeoutMs: int,
    lookup: nat -> Option<ReceiptStatus>, busy: nat -> nat, late: nat -> nat,
    writable: nat -> bool, killed: nat)

  const DEFAULT_POLL_MS := 500

  function Rounds(timeoutMs: int, pollMs: int): (n: int)
    requires pollMs > 0
    ensures timeoutMs <= 0 ==> n == 0
    ensures timeoutMs > 0 ==> n > 0 && (n - 1) * pollMs < timeoutMs <= n * pollMs
  {
    if timeoutMs <= 0 then 0 else (timeoutMs + pollMs - 1) / pollMs
  }

  /** Each nap begins when the last one and a lookup have really passed. */
  ghost predicate Timed(naps: seq<Nap>, elapsed: int, busy: nat -> nat, late: nat -> nat) {
    && (naps == [] ==> elapsed == busy(0))
    && (naps != [] ==>
        && naps[0].elapsed == busy(0)
        && elapsed == After(naps[|naps| - 1], |naps| - 1, busy, late))
    && forall k :: 0 <= k < |naps| - 1 ==> naps[k + 1].elapsed == After(naps[k], k, busy, late)
  }

  /** What the clock shows after the k-th nap, however late it ends, and the lookup that follows. */
  function After(nap: Nap, k: nat, busy: nat -> nat, late: nat -> nat): (elapsed: int) {
    nap.elapsed + nap.ms + late(k) + busy(k + 1)
  }

  /** The effects of one command, in the order they happen: only the methods below extend the log. */
  class SendContext {
    const journal: Journal<Entry>
    ghost var events: seq<Event>

    constructor (journal: Journal<Entry>)
      ensures this.journal == journal && events == []
    {
      this.journal := journal;
      events := [];
    }

    /** `journal.append`. */
    method Append(entry: Entry, writable: bool) returns (written: bool)
      modifies this, journal
      ensures written == writable
      ensures journal.entries == if written then old(journal.entries) + [entry] else old(journal.entries)
      ensures events == if written then old(events) + [Journalled(entry)] else old(events)
    {
      written := journal.Append(entry, writable);
      if written {
        events := events + [Journalled(entry)];
      }
    }

    /** `signer.send`: a hash, or a throw that does not say whether anything was sent. */
    method Send(sending: Sending) returns (hash: Option<Hash>)
      modifies this
      ensures hash == if sending.Returned? then Some(sending.hash) else None
      ensures events == if sending.NotSent? then old(events) else old(events) + [Sent(sending.hash)]
    {
      if !sending.NotSent? {
        events := events + [Sent(sending.hash)];
      }
      return if sending.Returned? then Some(sending.hash) else None;
    }

    /**
     * `awaitReceipt`, for any node and any clock: `lookup(k)` is what the k-th lookup finds, `busy(k)`
     * how long it takes, and `late(k)` by how much the k-th sleep overruns.
     */
    method AwaitReceipt(hash: Hash, timeoutMs: int, pollMs: int,
                        lookup: nat -> Option<ReceiptStatus>, busy: nat -> nat, late: nat -> nat)
      returns (outcome: Outcome, lookups: nat, naps: seq<Nap>, elapsed: int)
      requires pollMs > 0
      modifies this
      ensures events == old(events) + [WaitStarted(hash)]
      ensures 1 <= lookups <= Rounds(timeoutMs, pollMs) + 1 && |naps| == lookups - 1
      ensures Timed(naps, elapsed, busy, late)
      ensures forall k :: 0 <= k < lookups - 1 ==> lookup(k).None?
      ensures outcome.Mined? ==> lookup(lookups - 1) == Some(outcome.status)
      ensures outcome.StillPending? ==> lookup(lookups - 1).None? && elapsed >= timeoutMs
      ensures outcome.StillPending? ==> -500 <= 1000 * outcome.waitedSeconds - elapsed <= 500
      ensures forall k :: 0 <= k < |naps| ==> 0 < naps[k].ms <= pollMs && naps[k].elapsed + naps[k].ms <= timeoutMs
    {
      events := events + [WaitStarted(hash)];
      elapsed := 0;
      lookups, naps := 0, [];
      ghost var due := 0;
      var k := 0;
      while true
        invariant events == old(events) + [WaitStarted(hash)]
        invariant lookups == k == |naps|
        invariant elapsed >= (if due < timeoutMs then due else timeoutMs) && due == k * pollMs && elapsed >= 0
        invariant k > 0 ==> (k - 1) * pollMs < timeoutMs
        invariant k == 0 ==> elapsed == 0
        invariant k > 0 ==> naps[0].elapsed == busy(0) && elapsed == naps[k - 1].elapsed + naps[k - 1].ms + late(k - 1)
        invariant forall j :: 0 <= j < k - 1 ==> naps[j + 1].elapsed == After(naps[j], j, busy, late)
        invariant forall j :: 0 <= j < k ==> lookup(j).None?
        invariant forall j :: 0 <= j < k ==> 0 < naps[j].ms <= pollMs && naps[j].elapsed + naps[j].ms <= timeoutMs
        decreases timeoutMs - elapsed
      {
        var receipt := lookup(k);
        elapsed := elapsed + busy(k);
        lookups := k + 1;
        if receipt.Some? {
          BoundedRounds(k, timeoutMs, pollMs);
          return Mined(receipt.value), lookups, naps, elapsed;
        }
        if elapsed >= timeoutMs {
          BoundedRounds(k, timeoutMs, pollMs);
          return StillPending((elapsed + 500) / 1000), lookups, naps, elapsed;
        }
        var left := if timeoutMs - elapsed > 0 then timeoutMs - elapsed else 0;
        var ms := if pollMs < left then pollMs else left;
        naps := naps + [Nap(elapsed, ms)];
        elapsed := elapsed + ms + late(k);
        due := due + pollMs;
        k := k + 1;
      }
    }

    /** The end of a send: the wait for the receipt, its outcome in the journal, and the verdict. */
    method Conclude(call: Call, h: Hash) returns (r: Result<Hash, SendError>, ghost result: Result<ReceiptStatus, ()>)
      requires call.killed > 3
      modifies this, journal
      ensures events == old(events) + [WaitStarted(h)]
              + if call.killed > 4 && call.writable(2) then [Journalled(OutcomeOf(h, result))] else []
      ensures journal.entries == old(journal.entries)
              + if call.killed > 4 && call.writable(2) then [OutcomeOf(h, result)] else []
      ensures call.killed > 5 && call.writable(2) ==> r == Verdict(h, result)
      ensures r.Ok? ==> r == Ok(h) && result == Ok(Success) && call.killed > 5 && call.writable(2)
      ensures result.Ok? ==> exists k: nat :: k <= Rounds(call.timeoutMs, 500) && call.lookup(k) == Some(result.value)
      ensures result.Err? ==> call.lookup(0).None?
    {
      var outcome, lookups, _, _ := AwaitReceipt(h, call.timeoutMs, DEFAULT_POLL_MS, call.lookup, call.busy, call.late);
      result := if outcome.Mined? then Ok(outcome.status) else Err(());
      assert outcome.Mined? ==> call.lookup(lookups - 1) == Some(outcome.status);
      assert lookups - 1 <= Rounds(call.timeoutMs, 500);
      assert outcome.StillPending? ==> call.lookup(lookups - 1).None?;
      if call.killed == 4 { return Err(Killed), result; }
      var written := Append(OutcomeOf(h, if outcome.Mined? then Ok(outcome.status) else Err(())), call.writable(2));
      if !written { return Err(JournalUnwritable), result; }
      if call.killed == 5 { return Err(Killed), result; }
      if outcome.StillPending? { return Err(Pending), result; }
      if outcome.status.Reverted? { return Err(RevertedOnChain), result; }
      return Ok(h), result;
    }

    /**
     * `performSend`. Wherever the process dies, whatever throws, what happened is the beginning of one
     * life: simulated, sent, its hash journalled, waited for, its outcome journalled. A value comes
     * back only from a journalled success. The hash of a transaction that was sent is missing from the
     * journal exactly when the signer threw after sending, or the process died or the journal failed
     * between the two.
     */
    method PerformSend(call: Call) returns (r: Result<Hash, SendError>, ghost trace: seq<Event>)
      modifies this, journal
      ensures events == old(events) + trace && Orderly(trace)
      ensures journal.entries == old(journal.entries) + EntriesOf(trace)
      ensures Accounted(call, trace)
      ensures r.Ok? ==>
        && call.sending == Returned(r.value) && trace == Life(r.value, Ok(Success))
        && exists k: nat :: k <= Rounds(call.timeoutMs, 500) && call.lookup(k) == Some(Success)
      ensures !call.simulation.Permitted? ==> r == Err(Refusal(call.simulation))
      ensures call.killed > 5 && |trace| == 5 ==>
        trace[4].Journalled? && trace[4].entry.OutcomeOf? && r == Verdict(trace[4].entry.hash, trace[4].entry.result)
    {
      hide Life, Orderly, EntriesOf, Begun, Timed, Reach, Accounted;
      var h := HashOf(call);
      var untold: Result<ReceiptStatus, ()> := Err(());
      trace := Begun(h, untold, Reach(call));
      Accounts(call, untold);
      Unfolds(h, untold);
      ReachSays(call);
      if !call.simulation.Permitted? { return Err(Refusal(call.simulation)), trace; }
      if call.killed == 0 { return Err(Killed), trace; }
      var written := Append(Simulated, call.writable(0));
      if !written { return Err(JournalUnwritable), trace; }
      if call.killed == 1 { return Err(Killed), trace; }
      var hash := Send(call.sending);
      if hash.None? { return Err(SignerFailed), trace; }
      if call.killed == 2 { return Err(Killed), trace; }
      written := Append(Broadcast(h), call.writable(1));
      if !written { return Err(JournalUnwritable), trace; }
      if call.killed == 3 { return Err(Killed), trace; }
      ghost var result;
      r, result := Conclude(call, h);
      if call.killed > 4 && call.writable(2) {
        trace := Begun(h, result, 5);
        Accounts(call, result);
        Unfolds(h, result);
      }
    }

    /** Any number of calls, each of them killed anywhere. */
    method PerformAll(calls: seq<Call>) returns (ghost traces: seq<seq<Event>>)
      modifies this, journal
      ensures |traces| == |calls| && forall i :: 0 <= i < |traces| ==> Orderly(traces[i])
      ensures events == old(events) + Concatenated(traces)
      ensures journal.entries == old(journal.entries) + EntriesOf(Concatenated(traces))
      ensures Preceded(Concatenated(traces)) && |Sends(Concatenated(traces))| <= |calls|
    {
      hide Orderly, EntriesOf, Preceded, Sends, Life;
      traces := [];
      NothingYet();
      for i := 0 to |calls|
        invariant |traces| == i && forall j :: 0 <= j < i ==> Orderly(traces[j])
        invariant events == old(events) + Concatenated(traces)
        invariant journal.entries == old(journal.entries) + EntriesOf(Concatenated(traces))
      {
        ghost var trace;
        var _, t := PerformSend(calls[i]);
        trace := t;
        ConcatenatedMore(traces, trace);
        EntriesConcat(Concatenated(traces), trace);
        traces := traces + [trace];
      }
      CallsPreceded(traces);
    }
  }

  lemma BoundedRounds(k: nat, timeoutMs: int, pollMs: int)
    requires pollMs > 0 && (k > 0 ==> (k - 1) * pollMs < timeoutMs)
    ensures k <= Rounds(timeoutMs, pollMs)
  {
    if k > 0 {
      var n := Rounds(timeoutMs, pollMs);
      if k > n {
        Monotone(n, k - 1, pollMs);
      }
    }
  }

  lemma Monotone(a: int, b: int, p: int)
    requires a <= b && p > 0
    ensures a * p <= b * p
  {
    assert (b - a) * p >= 0;
  }

  // ---- One call ----------------------------------------------------------------------------------------

  function EntriesOf(trace: seq<Event>): (es: seq<Entry>) {
    if trace == [] then []
    else EntriesOf(trace[..|trace| - 1]) + (if trace[|trace| - 1].Journalled? then [trace[|trace| - 1].entry] else [])
  }

  lemma EntriesOfMore(trace: seq<Event>, e: Event)
    ensures EntriesOf(trace + [e]) == EntriesOf(trace) + (if e.Journalled? then [e.entry] else [])
  {
    assert (trace + [e])[..|trace|] == trace;
  }

  /** The whole life of a send of `h` that ends with `result`. */
  function Life(h: Hash, result: Result<ReceiptStatus, ()>): (trace: seq<Event>) {
    [Journalled(Simulated), Sent(h), Journalled(Broadcast(h)), WaitStarted(h), Journalled(OutcomeOf(h, result))]
  }

  /** What the caller is told of a life lived to its end. */
  function Verdict(h: Hash, result: Result<ReceiptStatus, ()>): (r: Result<Hash, SendError>) {
    match result
    case Ok(Success) => Ok(h)
    case Ok(Reverted) => Err(RevertedOnChain)
    case Err(_) => Err(Pending)
  }

  /** What a call may leave behind: the beginning of one such life. */
  ghost predicate Orderly(trace: seq<Event>) {
    exists h, result :: trace <= Life(h, result)
  }

  /** The first n effects of a life. */
  function Begun(h: Hash, result: Result<ReceiptStatus, ()>, n: nat): (trace: seq<Event>)
    requires n <= 5
    ensures |trace| == n
  {
    Life(h, result)[..n]
  }

  function HashOf(call: Call): (h: Hash) {
    if call.sending.NotSent? then 0 else call.sending.hash
  }

  /** How many effects a call has. */
  function Reach(call: Call): (n: nat)
    ensures n <= 5
  {
    if !call.simulation.Permitted? || call.killed == 0 || !call.writable(0) then 0
    else if call.killed == 1 || call.sending.NotSent? then 1
    else if call.killed == 2 || call.sending.SentButLost? || !call.writable(1) then 2
    else if call.killed == 3 then 3
    else if call.killed == 4 || !call.writable(2) then 4
    else 5
  }

  /**
   * What the trace says of the call: nothing without a permitted simulation, no hash but the one the
   * signer sent, every effect the process lived to see, and a sent hash that is not journalled exactly
   * when the signer threw after sending or the process died or the journal failed just then.
   */
  ghost predicate Accounted(call: Call, trace: seq<Event>) {
    && (trace != [] ==> call.simulation.Permitted?)
    && (forall h :: Sent(h) in trace ==> !call.sending.NotSent? && call.sending.hash == h)
    && (call.simulation.Permitted? && call.sending.Returned? && call.writable(0) && call.writable(1) && call.writable(2) ==>
        |trace| == if call.killed < 5 then call.killed else 5)
    && (forall h :: (Sent(h) in trace && Journalled(Broadcast(h)) !in trace) <==>
        && call.simulation.Permitted? && call.writable(0) && call.killed >= 2
        && !call.sending.NotSent? && call.sending.hash == h
        && (call.sending.SentButLost? || call.killed == 2 || !call.writable(1)))
  }

  lemma ReachSays(call: Call)
    ensures call.simulation.Permitted? && call.killed > 0 && call.writable(0) <==> Reach(call) >= 1
    ensures Reach(call) >= 1 && call.killed > 1 && !call.sending.NotSent? <==> Reach(call) >= 2
    ensures Reach(call) >= 2 && call.killed > 2 && call.sending.Returned? && call.writable(1) <==> Reach(call) >= 3
    ensures Reach(call) >= 3 && call.killed > 3 <==> Reach(call) >= 4
    ensures Reach(call) >= 4 && call.killed > 4 && call.writable(2) <==> Reach(call) == 5
  {
  }

  /** The beginning of a life that a call reaches accounts for it. */
  lemma Accounts(call: Call, result: Result<ReceiptStatus, ()>)
    ensures var trace := Begun(HashOf(call), result, Reach(call));
            && Orderly(trace) && Accounted(call, trace)
            && EntriesOf(trace) == Lines(HashOf(call), result, Reach(call))
  {
    var h, n := HashOf(call), Reach(call);
    var trace := Begun(h, result, n);
    assert trace <= Life(h, result);
    BegunLines(h, result, n);
    BegunMentions(h, result, n);
    hide Begun, Life, EntriesOf;
  }

  function Lines(h: Hash, result: Result<ReceiptStatus, ()>, n: nat): (es: seq<Entry>) {
    (if n >= 1 then [Simulated] else []) + (if n >= 3 then [Broadcast(h)] else [])
    + (if n >= 5 then [OutcomeOf(h, result)] else [])
  }

  lemma BegunLines(h: Hash, result: Result<ReceiptStatus, ()>, n: nat)
    requires n <= 5
    ensures EntriesOf(Begun(h, result, n)) == Lines(h, result, n)
  {
    if n > 0 {
      assert Begun(h, result, n) == Begun(h, result, n - 1) + [Life(h, result)[n - 1]];
      EntriesOfMore(Begun(h, result, n - 1), Life(h, result)[n - 1]);
      BegunLines(h, result, n - 1);
    }
  }

  lemma BegunMentions(h: Hash, result: Result<ReceiptStatus, ()>, n: nat)
    requires n <= 5
    ensures forall x ::
      && (Sent(x) in Begun(h, result, n) <==> x == h && n >= 2)
      && (Journalled(Broadcast(x)) in Begun(h, result, n) <==> x == h && n >= 3)
  {
    var life := Life(h, result);
    if n >= 2 { assert life[..n][1] == Sent(h); }
    if n >= 3 { assert life[..n][2] == Journalled(Broadcast(h)); }
  }

  /** A life, effect by effect. The outcome shows in the last one alone. */
  lemma Unfolds(h: Hash, result: Result<ReceiptStatus, ()>)
    ensures Begun(h, result, 0) == []
    ensures Begun(h, result, 1) == [Journalled(Simulated)]
    ensures Begun(h, result, 2) == [Journalled(Simulated), Sent(h)]
    ensures Begun(h, result, 3) == [Journalled(Simulated), Sent(h), Journalled(Broadcast(h))]
    ensures Begun(h, result, 4) == [Journalled(Simulated), Sent(h), Journalled(Broadcast(h)), WaitStarted(h)]
    ensures Begun(h, result, 5) == Life(h, result)
    ensures Life(h, result) == [Journalled(Simulated), Sent(h), Journalled(Broadcast(h)), WaitStarted(h),
                                Journalled(OutcomeOf(h, result))]
  {
  }

  // ---- Any number of calls ---------------------------------------------------------------------------

  /** What a sequence of calls left behind. */
  function Concatenated(calls: seq<seq<Event>>): (trace: seq<Event>) {
    if calls == [] then [] else Concatenated(calls[..|calls| - 1]) + calls[|calls| - 1]
  }

  lemma ConcatenatedMore(calls: seq<seq<Event>>, trace: seq<Event>)
    ensures Concatenated(calls + [trace]) == Concatenated(calls) + trace
  {
    assert (calls + [trace])[..|calls|] == calls;
  }

  lemma NothingYet()
    ensures Concatenated([]) == [] && EntriesOf([]) == []
  {
  }

  lemma {:induction false} EntriesConcat(a: seq<Event>, b: seq<Event>)
    ensures EntriesOf(a + b) == EntriesOf(a) + EntriesOf(b)
  {
    if b == [] {
      assert a + b == a;
    } else {
      var front := b[..|b| - 1];
      EntriesConcat(a, front);
      assert (a + b)[..|a + b| - 1] == a + front;
    }
  }

  ghost predicate AllOrderly(calls: seq<seq<Event>>) {
    forall i :: 0 <= i < |calls| ==> Orderly(calls[i])
  }

  /** Before this effect stands what must have come first. */
  ghost predicate PrecededAt(trace: seq<Event>, i: nat)
    requires i < |trace|
  {
    match trace[i]
    case Sent(_) => i > 0 && trace[i - 1] == Journalled(Simulated)
    case WaitStarted(h) => Journalled(Broadcast(h)) in trace[..i]
    case Journalled(Broadcast(h)) => Sent(h) in trace[..i]
    case Journalled(OutcomeOf(h, _)) => Journalled(Broadcast(h)) in trace[..i]
    case _ => true
  }

  ghost predicate Preceded(trace: seq<Event>) {
    forall i :: 0 <= i < |trace| ==> PrecededAt(trace, i)
  }

  lemma OrderlyPreceded(trace: seq<Event>)
    requires Orderly(trace)
    ensures Preceded(trace)
    ensures |Sends(trace)| <= 1
  {
    var h, result :| trace <= Life(h, result);
    var life := Life(h, result);
    assert trace == life[..|trace|];
    assert |trace| > 1 ==> trace[1] == Sent(h);
    assert |trace| > 2 ==> trace[2] == Journalled(Broadcast(h));
    if |trace| > 0 { SendsOfOne(trace); }
  }

  function Sends(trace: seq<Event>): (hashes: seq<Hash>) {
    if trace == [] then []
    else Sends(trace[..|trace| - 1]) + (if trace[|trace| - 1].Sent? then [trace[|trace| - 1].hash] else [])
  }

  lemma {:induction false} SendsOfOne(trace: seq<Event>)
    requires forall i :: 0 <= i < |trace| && i != 1 ==> !trace[i].Sent?
    ensures |Sends(trace)| == if |trace| > 1 && trace[1].Sent? then 1 else 0
  {
    if trace != [] {
      SendsOfOne(trace[..|trace| - 1]);
    }
  }

  lemma PrecededConcat(a: seq<Event>, b: seq<Event>)
    requires Preceded(a) && Preceded(b)
    ensures Preceded(a + b)
  {
    var both := a + b;
    forall i | 0 <= i < |both|
      ensures PrecededAt(both, i)
    {
      if i < |a| {
        assert PrecededAt(a, i) && both[i] == a[i];
        assert both[..i] == a[..i];
      } else {
        assert PrecededAt(b, i - |a|) && both[i] == b[i - |a|];
        assert both[..i] == a + b[..i - |a|];
      }
    }
  }

  /**
   * Over any calls, killed anywhere: nothing is sent but right after its permitted simulation was
   * journalled, no wait begins before its hash was, and every hash in the journal was sent.
   */
  lemma {:induction false} CallsPreceded(calls: seq<seq<Event>>)
    requires AllOrderly(calls)
    ensures Preceded(Concatenated(calls))
    ensures |Sends(Concatenated(calls))| <= |calls|
  {
    if calls != [] {
      var front, last := calls[..|calls| - 1], calls[|calls| - 1];
      CallsPreceded(front);
      OrderlyPreceded(last);
      PrecededConcat(Concatenated(front), last);
      SendsConcat(Concatenated(front), last);
    }
  }

  lemma {:induction false} SendsConcat(a: seq<Event>, b: seq<Event>)
    ensures Sends(a + b) == Sends(a) + Sends(b)
  {
    if b == [] {
      assert a + b == a;
    } else {
      var front := b[..|b| - 1];
      SendsConcat(a, front);
      assert (a + b)[..|a + b| - 1] == a + front;
    }
  }
}
