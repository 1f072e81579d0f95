/**
 * The DNS forwarder's pending-query protocol. Query tasks, one receiver and timeouts
 * share a map from transaction ID to waiting task; each locked section and each
 * channel operation is one atomic step, and steps of different tasks interleave freely.
 */
module DnsPending {
  import opened Common

  const MAX_PENDING_QUERIES := 4096

  type Tid = nat
  type Xid = u16

  function XidOf(b: Bytes): Xid
    requires |b| >= 2
  {
    Word(b[0], b[1])
  }

  /** The datagram with its transaction ID overwritten. */
  function PatchXid(b: Bytes, xid: Xid): (r: Bytes)
    requires |b| >= 2
    ensures |r| == |b| && XidOf(r) == xid && r[2..] == b[2..]
  {
    [xid / 256, xid % 256] + b[2..]
  }

  /** Two datagrams with one transaction ID agree on the two bytes that hold it. */
  lemma XidDeterminesBytes(a: Bytes, b: Bytes)
    requires |a| >= 2 && |b| >= 2 && XidOf(a) == XidOf(b)
    ensures a[..2] == b[..2]
  {
  }

  /** The reading end of a task's one-shot channel, as the sending end left it. */
  datatype Channel = Open | Filled(bytes: Bytes) | Closed

  datatype Phase =
    | Registered                     // entry inserted, query not yet sent
    | Waiting                        // query sent, awaiting the channel
    | Cleaning                       // about to remove its transaction ID from the map
    | Done(result: Option<Bytes>)    // returned

  datatype Task = Task(query: Bytes, upstream: Ip, xid: Xid, phase: Phase, chan: Channel)

  /** A map entry holds the sending end of its owner's channel. */
  datatype Entry = Entry(owner: Tid, upstream: Ip)

  datatype Datagram = Datagram(from: Ip, bytes: Bytes)

  /** The receiver task, which owns an entry's sending end between removing and using it. */
  datatype Receiver = Idle | Holding(entry: Entry, dg: Datagram)

  datatype Delivery = Delivery(tid: Tid, dg: Datagram)

  /** A query as it went to its upstream. */
  datatype SentQuery = SentQuery(tid: Tid, to: Ip, bytes: Bytes)

  /** `sent` and `deliveries` are histories: queries sent, and responses put into channels. */
  datatype State = State(
    tasks: map<Tid, Task>,
    pending: map<Xid, Entry>,
    receiver: Receiver,
    sent: seq<SentQuery>,
    deliveries: seq<Delivery>)

  datatype Step =
    | Register(tid: Tid, query: Bytes, upstream: Ip, draws: seq<Xid>)
    | SendOk(tid: Tid)
    | SendFail(tid: Tid)
    | Receive(dg: Datagram)
    | Deliver
    | Wake(tid: Tid)
    | Timeout(tid: Tid)
    | Cleanup(tid: Tid)

  const INIT := State(map[], map[], Idle, [], [])

  /** Redrawing ends at the first random ID not in the map. */
  ghost predicate DrawsUntilFree(pending: map<Xid, Entry>, draws: seq<Xid>) {
    && |draws| > 0
    && draws[|draws| - 1] !in pending
    && forall i | 0 <= i < |draws| - 1 :: draws[i] in pending
  }

  predicate Accepted(s: State, query: Bytes) {
    |query| >= DNS_HEADER_SIZE && |s.pending| < MAX_PENDING_QUERIES
  }

  predicate InPhase(s: State, tid: Tid, phase: Phase) {
    tid in s.tasks && s.tasks[tid].phase == phase
  }

  ghost predicate Enabled(s: State, step: Step) {
    match step
    case Register(tid, query, _, draws) =>
      tid !in s.tasks && (Accepted(s, query) ==> DrawsUntilFree(s.pending, draws))
    case SendOk(tid) => InPhase(s, tid, Registered)
    case SendFail(tid) => InPhase(s, tid, Registered)
    case Receive(_) => s.receiver.Idle?
    case Deliver => s.receiver.Holding? && s.receiver.entry.owner in s.tasks
    case Wake(tid) => InPhase(s, tid, Waiting) && !s.tasks[tid].chan.Open?
    case Timeout(tid) => InPhase(s, tid, Waiting)
    case Cleanup(tid) => InPhase(s, tid, Cleaning)
  }

  function SetPhase(s: State, tid: Tid, phase: Phase): State
    requires tid in s.tasks
  {
    s.(tasks := s.tasks[tid := s.tasks[tid].(phase := phase)])
  }

  function SetChan(s: State, tid: Tid, chan: Channel): State
    requires tid in s.tasks
  {
    s.(tasks := s.tasks[tid := s.tasks[tid].(chan := chan)])
  }

  /** Removing an entry drops its sending end, which closes the owner's channel. */
  function DropEntry(s: State, xid: Xid): State {
    if xid in s.pending then
      var s' := s.(pending := s.pending - {xid});
      var owner := s.pending[xid].owner;
      if owner in s.tasks then SetChan(s', owner, Closed) else s'
    else s
  }

  /** What a task returns for the response it read: the client's own transaction ID restored. */
  function Restored(query: Bytes, response: Bytes): Option<Bytes> {
    if |query| >= 2 && |response| >= DNS_HEADER_SIZE then Some(PatchXid(response, XidOf(query))) else None
  }

  /** The client's query under the task's own ID. */
  function Forwarded(t: Task): Bytes {
    if |t.query| >= 2 then PatchXid(t.query, t.xid) else t.query
  }

  function SendQuery(s: State, tid: Tid): State
    requires tid in s.tasks
  {
    SetPhase(s, tid, Waiting)
      .(sent := s.sent + [SentQuery(tid, s.tasks[tid].upstream, Forwarded(s.tasks[tid]))])
  }

  function RegisterTask(s: State, tid: Tid, query: Bytes, upstream: Ip, draws: seq<Xid>): State {
    if !Accepted(s, query) || draws == [] then
      s.(tasks := s.tasks[tid := Task(query, upstream, 0, Done(None), Closed)])
    else
      var xid := draws[|draws| - 1];
      s.(tasks := s.tasks[tid := Task(query, upstream, xid, Registered, Open)],
         pending := s.pending[xid := Entry(tid, upstream)])
  }

  function ReceiveDatagram(s: State, dg: Datagram): State {
    if |dg.bytes| < DNS_HEADER_SIZE || XidOf(dg.bytes) !in s.pending then s
    else
      var xid := XidOf(dg.bytes);
      s.(pending := s.pending - {xid}, receiver := Holding(s.pending[xid], dg))
  }

  /** A task that no longer reads its channel loses the response. */
  function DeliverOrDrop(s: State): State
    requires s.receiver.Holding? && s.receiver.entry.owner in s.tasks
  {
    var Holding(entry, dg) := s.receiver;
    var listening := s.tasks[entry.owner].phase in {Registered, Waiting};
    if dg.from == entry.upstream && listening then
      SetChan(s, entry.owner, Filled(dg.bytes))
        .(receiver := Idle, deliveries := s.deliveries + [Delivery(entry.owner, dg)])
    else
      SetChan(s, entry.owner, Closed).(receiver := Idle)
  }

  function Apply(s: State, step: Step): State
    requires Enabled(s, step)
  {
    match step
    case Register(tid, query, upstream, draws) => RegisterTask(s, tid, query, upstream, draws)
    case SendOk(tid) => SendQuery(s, tid)
    case SendFail(tid) => SetPhase(s, tid, Cleaning)
    case Receive(dg) => ReceiveDatagram(s, dg)
    case Deliver => DeliverOrDrop(s)
    case Wake(tid) =>
      if s.tasks[tid].chan.Filled?
      then SetPhase(s, tid, Done(Restored(s.tasks[tid].query, s.tasks[tid].chan.bytes)))
      else SetPhase(s, tid, Cleaning)
    case Timeout(tid) => SetPhase(s, tid, Cleaning)
    case Cleanup(tid) => DropEntry(SetPhase(s, tid, Done(None)), s.tasks[tid].xid)
  }

  ghost predicate LegalRun(s: State, steps: seq<Step>)
    decreases |steps|
  {
    steps == [] || (Enabled(s, steps[0]) && LegalRun(Apply(s, steps[0]), steps[1..]))
  }

  function After(s: State, steps: seq<Step>): State
    requires LegalRun(s, steps)
    decreases |steps|
  {
    if steps == [] then s else After(Apply(s, steps[0]), steps[1..])
  }

  // ----- The invariant -----

  ghost predicate HasEntry(s: State, tid: Tid) {
    tid in s.tasks && s.tasks[tid].xid in s.pending && s.pending[s.tasks[tid].xid].owner == tid
  }

  ghost predicate HeldByReceiver(s: State, tid: Tid) {
    s.receiver.Holding? && s.receiver.entry.owner == tid
  }

  /** The entry under `xid` belongs to an unreturned task that registered `xid`. */
  ghost predicate OwnedEntry(s: State, xid: Xid)
    requires xid in s.pending
  {
    var Entry(owner, upstream) := s.pending[xid];
    && owner in s.tasks
    && s.tasks[owner].xid == xid
    && s.tasks[owner].upstream == upstream
    && s.tasks[owner].chan == Open
    && !s.tasks[owner].phase.Done?
  }

  ghost predicate InFlight(s: State)
    requires s.receiver.Holding?
  {
    var Holding(entry, dg) := s.receiver;
    && entry.owner in s.tasks
    && |dg.bytes| >= DNS_HEADER_SIZE
    && s.tasks[entry.owner].xid == XidOf(dg.bytes)
    && s.tasks[entry.owner].upstream == entry.upstream
    && s.tasks[entry.owner].chan == Open
    && !HasEntry(s, entry.owner)
  }

  /** The delivery is the one in its task's channel, with that task's ID and from its upstream. */
  ghost predicate GoodDelivery(s: State, d: Delivery) {
    && d.tid in s.tasks
    && s.tasks[d.tid].chan == Filled(d.dg.bytes)
    && s.tasks[d.tid].upstream == d.dg.from
    && |d.dg.bytes| >= DNS_HEADER_SIZE
    && s.tasks[d.tid].xid == XidOf(d.dg.bytes)
  }

  ghost predicate Delivered(s: State, tid: Tid) {
    exists d | d in s.deliveries :: d.tid == tid
  }

  ghost predicate GoodTask(s: State, tid: Tid)
    requires tid in s.tasks
  {
    var t := s.tasks[tid];
    && (t.chan.Open? ==> HasEntry(s, tid) || HeldByReceiver(s, tid))
    && (t.chan.Filled? ==> Delivered(s, tid))
    && (t.phase.Done? && t.phase.result.Some? ==>
          t.chan.Filled? && Restored(t.query, t.chan.bytes) == t.phase.result)
  }

  ghost predicate Inv(s: State) {
    && |s.pending| <= MAX_PENDING_QUERIES
    && (forall xid | xid in s.pending :: OwnedEntry(s, xid))
    && (s.receiver.Holding? ==> InFlight(s))
    && (forall d | d in s.deliveries :: GoodDelivery(s, d))
    && (forall i, j | 0 <= i < j < |s.deliveries| :: s.deliveries[i].tid != s.deliveries[j].tid)
    && (forall tid | tid in s.tasks :: GoodTask(s, tid))
  }

  lemma RegisterKeepsInv(s: State, step: Step)
    requires Inv(s) && Enabled(s, step) && step.Register?
    ensures Inv(Apply(s, step))
  {
    var s' := Apply(s, step);
    forall tid | tid in s'.tasks
      ensures GoodTask(s', tid)
    {
      if tid != step.tid {
        assert GoodTask(s, tid);
        assert Delivered(s, tid) ==> Delivered(s', tid);
      }
    }
    forall xid | xid in s'.pending
      ensures OwnedEntry(s', xid)
    {
      assert xid in s.pending ==> OwnedEntry(s, xid);
    }
    forall d | d in s'.deliveries
      ensures GoodDelivery(s', d)
    {
      assert GoodDelivery(s, d);
    }
  }

  /** Steps that move one task to another phase and touch nothing shared. */
  lemma PhaseChangeKeepsInv(s: State, tid: Tid, phase: Phase)
    requires Inv(s) && tid in s.tasks
    requires phase.Done? ==> s.tasks[tid].chan.Filled?
    requires phase.Done? ==> phase.result == Restored(s.tasks[tid].query, s.tasks[tid].chan.bytes)
    ensures Inv(SetPhase(s, tid, phase))
  {
  }

  /** The invariant says nothing of what was sent. */
  lemma SentIsHistory(s: State, s': State)
    requires Inv(s) && s' == s.(sent := s'.sent)
    ensures Inv(s')
  {
  }

  lemma RemovalShrinks(m: map<Xid, Entry>, xid: Xid)
    ensures |m - {xid}| <= |m|
  {
  }

  lemma ReceiveKeepsInv(s: State, step: Step)
    requires Inv(s) && Enabled(s, step) && step.Receive?
    ensures Inv(Apply(s, step))
  {
  }

  /** `s'` is `s` with the held sending end used: the owner's channel is filled, or closed. */
  ghost predicate Settled(s: State, chan: Channel, s': State) {
    && s.receiver.Holding? && !chan.Open?
    && var Holding(entry, dg) := s.receiver;
    && entry.owner in s.tasks
    && s'.tasks == s.tasks[entry.owner := s.tasks[entry.owner].(chan := chan)]
    && s'.pending == s.pending
    && s'.receiver == Idle
    && if chan.Filled?
       then
         && chan.bytes == dg.bytes && dg.from == entry.upstream
         && !s.tasks[entry.owner].phase.Done?
         && s'.deliveries == s.deliveries + [Delivery(entry.owner, dg)]
       else s'.deliveries == s.deliveries
  }

  lemma SettledEntry(s: State, chan: Channel, s': State, x: Xid)
    requires Inv(s) && Settled(s, chan, s') && x in s'.pending
    ensures OwnedEntry(s', x)
  {
    assert OwnedEntry(s, x);
  }

  lemma SettledOldDelivery(s: State, chan: Channel, s': State, d: Delivery)
    requires Inv(s) && Settled(s, chan, s') && d in s.deliveries
    ensures GoodDelivery(s', d) && d.tid != s.receiver.entry.owner
  {
    assert GoodDelivery(s, d);
  }

  lemma SettledTask(s: State, chan: Channel, s': State, tid: Tid)
    requires Inv(s) && Settled(s, chan, s') && tid in s.tasks
    ensures GoodTask(s', tid)
  {
    assert GoodTask(s, tid);
    assert s.deliveries <= s'.deliveries;
    if tid == s.receiver.entry.owner && chan.Filled? {
      assert s'.deliveries[|s.deliveries|].tid == tid;
    }
  }

  lemma SettlingKeepsInv(s: State, chan: Channel, s': State)
    requires Inv(s) && Settled(s, chan, s')
    ensures Inv(s')
  {
    forall x | x in s'.pending
      ensures OwnedEntry(s', x)
    {
      SettledEntry(s, chan, s', x);
    }
    forall d | d in s.deliveries
      ensures GoodDelivery(s', d) && d.tid != s.receiver.entry.owner
    {
      SettledOldDelivery(s, chan, s', d);
    }
    forall tid | tid in s'.tasks
      ensures GoodTask(s', tid)
    {
      SettledTask(s, chan, s', tid);
    }
  }

  lemma DeliverKeepsInv(s: State)
    requires Inv(s) && Enabled(s, Deliver)
    ensures Inv(Apply(s, Deliver))
  {
    var s' := Apply(s, Deliver);
    SettlingKeepsInv(s, s'.tasks[s.receiver.entry.owner].chan, s');
  }

  /** `s'` is `s` with task `tid` returned and the entry under its ID, if any, dropped. */
  ghost predicate CleanedUp(s: State, tid: Tid, s': State) {
    && tid in s.tasks && s'.tasks.Keys == s.tasks.Keys
    && s'.pending == s.pending - {s.tasks[tid].xid}
    && s'.receiver == s.receiver
    && s'.sent == s.sent && s'.deliveries == s.deliveries
    && forall t | t in s.tasks ::
         s'.tasks[t] == s.tasks[t].(
           chan := if HasEntry(s, t) && s.tasks[t].xid == s.tasks[tid].xid then Closed else s.tasks[t].chan,
           phase := if t == tid then Done(None) else s.tasks[t].phase)
  }

  /**
   * What a cleanup does, exactly. It removes by ID alone, so the entry it removes may be
   * another task's; that task is not stranded, for its channel closes.
   */
  lemma CleanupEffect(s: State, tid: Tid)
    requires Inv(s) && Enabled(s, Cleanup(tid))
    ensures CleanedUp(s, tid, Apply(s, Cleanup(tid)))
  {
    var xid, returned := s.tasks[tid].xid, SetPhase(s, tid, Done(None));
    if xid in s.pending {
      assert OwnedEntry(s, xid);
      DroppedEffect(s, returned, tid, s.pending[xid].owner);
    } else {
      NothingDropped(s, returned, tid);
    }
  }

  lemma NothingDropped(s: State, returned: State, tid: Tid)
    requires tid in s.tasks && returned == SetPhase(s, tid, Done(None)) && s.tasks[tid].xid !in s.pending
    ensures CleanedUp(s, tid, DropEntry(returned, s.tasks[tid].xid))
  {
    assert s.pending - {s.tasks[tid].xid} == s.pending;
  }

  lemma DroppedEffect(s: State, returned: State, tid: Tid, owner: Tid)
    requires tid in s.tasks && returned == SetPhase(s, tid, Done(None))
    requires s.tasks[tid].xid in s.pending && s.pending[s.tasks[tid].xid].owner == owner && owner in s.tasks
    requires s.tasks[owner].xid == s.tasks[tid].xid
    ensures CleanedUp(s, tid, DropEntry(returned, s.tasks[tid].xid))
  {
  }

  lemma CleanedUpEntry(s: State, tid: Tid, s': State, x: Xid)
    requires Inv(s) && CleanedUp(s, tid, s') && x in s'.pending
    ensures OwnedEntry(s', x)
  {
  }

  lemma CleanedUpReceiver(s: State, tid: Tid, s': State)
    requires Inv(s) && CleanedUp(s, tid, s') && s.receiver.Holding?
    ensures InFlight(s')
  {
  }

  lemma CleanedUpTask(s: State, tid: Tid, s': State, t: Tid)
    requires CleanedUp(s, tid, s') && t in s.tasks && GoodTask(s, t)
    requires HasEntry(s, t) ==> OwnedEntry(s, s.tasks[t].xid)
    ensures GoodTask(s', t)
  {
  }

  lemma CleanedUpDelivery(s: State, tid: Tid, s': State, d: Delivery)
    requires Inv(s) && CleanedUp(s, tid, s') && d in s.deliveries
    ensures GoodDelivery(s', d)
  {
  }

  lemma CleanupKeepsInv(s: State, tid: Tid)
    requires Inv(s) && Enabled(s, Cleanup(tid))
    ensures Inv(Apply(s, Cleanup(tid)))
  {
    var s' := Apply(s, Cleanup(tid));
    CleanupEffect(s, tid);
    RemovalShrinks(s.pending, s.tasks[tid].xid);
    forall x | x in s'.pending
      ensures OwnedEntry(s', x)
    {
      CleanedUpEntry(s, tid, s', x);
    }
    if s.receiver.Holding? {
      CleanedUpReceiver(s, tid, s');
    }
    forall t | t in s'.tasks
      ensures GoodTask(s', t)
    {
      CleanedUpTask(s, tid, s', t);
    }
    forall d | d in s'.deliveries
      ensures GoodDelivery(s', d)
    {
      CleanedUpDelivery(s, tid, s', d);
    }
  }

  lemma StepKeepsInv(s: State, step: Step)
    requires Inv(s) && Enabled(s, step)
    ensures Inv(Apply(s, step))
  {
    match step
    case Register(_, _, _, _) => RegisterKeepsInv(s, step);
    case SendOk(tid) =>
      PhaseChangeKeepsInv(s, tid, Waiting);
      SentIsHistory(SetPhase(s, tid, Waiting), Apply(s, step));
    case SendFail(tid) => PhaseChangeKeepsInv(s, tid, Cleaning);
    case Receive(_) => ReceiveKeepsInv(s, step);
    case Deliver => DeliverKeepsInv(s);
    case Wake(tid) =>
      PhaseChangeKeepsInv(s, tid, Apply(s, step).tasks[tid].phase);
    case Timeout(tid) => PhaseChangeKeepsInv(s, tid, Cleaning);
    case Cleanup(tid) => CleanupKeepsInv(s, tid);
  }

  /** `s'` has the tasks of `s` under the same queries, and at least its histories. */
  ghost predicate SameTasks(s: State, s': State) {
    && s'.tasks.Keys == s.tasks.Keys
    && (forall t | t in s.tasks :: s'.tasks[t].query == s.tasks[t].query)
    && s.deliveries <= s'.deliveries
    && s.sent <= s'.sent
  }

  /** No step rewrites a query or a history; only registering adds a task. */
  lemma StepExtends(s: State, step: Step)
    requires Enabled(s, step) && !step.Register?
    ensures SameTasks(s, Apply(s, step))
  {
  }

  lemma {:induction false} RunKeepsInv(s: State, steps: seq<Step>)
    requires Inv(s) && LegalRun(s, steps)
    ensures Inv(After(s, steps))
    decreases |steps|
  {
    if steps != [] {
      StepKeepsInv(s, steps[0]);
      RunKeepsInv(Apply(s, steps[0]), steps[1..]);
    }
  }

  // ----- What each step does -----

  /** When the environment and the scheduler may take each step. */
  lemma StepsAreEnabled(s: State, tid: Tid, dg: Datagram)
    ensures forall query: Bytes, upstream: Ip, draws: seq<Xid> ::
              Enabled(s, Register(tid, query, upstream, draws)) <==>
              && tid !in s.tasks
              && (|query| >= 12 && |s.pending| < 4096 ==>
                    && |draws| > 0 && draws[|draws| - 1] !in s.pending
                    && forall i | 0 <= i < |draws| - 1 :: draws[i] in s.pending)
    ensures Enabled(s, SendOk(tid)) <==> tid in s.tasks && s.tasks[tid].phase == Registered
    ensures Enabled(s, SendFail(tid)) <==> tid in s.tasks && s.tasks[tid].phase == Registered
    ensures Enabled(s, Timeout(tid)) <==> tid in s.tasks && s.tasks[tid].phase == Waiting
    ensures Enabled(s, Wake(tid)) <==> tid in s.tasks && s.tasks[tid].phase == Waiting && s.tasks[tid].chan != Open
    ensures Enabled(s, Cleanup(tid)) <==> tid in s.tasks && s.tasks[tid].phase == Cleaning
    ensures Enabled(s, Receive(dg)) <==> s.receiver == Idle
  {
  }

  /**
   * A query with a whole header is registered whenever fewer than 4096 are pending, under the
   * last ID drawn; any other returns at once. Nothing else changes.
   */
  lemma RegisterEffect(s: State, tid: Tid, query: Bytes, upstream: Ip, draws: seq<Xid>)
    requires Enabled(s, Register(tid, query, upstream, draws))
    ensures var s' := Apply(s, Register(tid, query, upstream, draws));
      && s'.receiver == s.receiver && s'.sent == s.sent && s'.deliveries == s.deliveries
      && if |query| >= 12 && |s.pending| < 4096 then
           && |draws| > 0
           && var xid := draws[|draws| - 1];
           && s'.pending == s.pending[xid := Entry(tid, upstream)]
           && s'.tasks == s.tasks[tid := Task(query, upstream, xid, Registered, Open)]
         else
           && s'.pending == s.pending
           && tid in s'.tasks && s'.tasks[tid].phase == Done(None)
           && s'.tasks == s.tasks[tid := s'.tasks[tid]]
  {
  }

  /** Sending: the query goes out as the client sent it but for the ID, or the task gives up. */
  lemma SendEffect(s: State, tid: Tid)
    requires Enabled(s, SendOk(tid)) && |s.tasks[tid].query| >= 12
    ensures var s' := Apply(s, SendOk(tid));
      && s' == s.(tasks := s.tasks[tid := s.tasks[tid].(phase := Waiting)], sent := s'.sent)
      && |s'.sent| == |s.sent| + 1 && s.sent <= s'.sent
      && var q := s'.sent[|s.sent|];
      && q.tid == tid && q.to == s.tasks[tid].upstream
      && |q.bytes| == |s.tasks[tid].query| && XidOf(q.bytes) == s.tasks[tid].xid
      && q.bytes[2..] == s.tasks[tid].query[2..]
    ensures Apply(s, SendFail(tid)) == s.(tasks := s.tasks[tid := s.tasks[tid].(phase := Cleaning)])
  {
  }

  /** A waiting task that times out, or finds its channel closed, goes on to clean up. */
  lemma WaitingEffect(s: State, tid: Tid)
    requires InPhase(s, tid, Waiting)
    ensures var cleaning := s.(tasks := s.tasks[tid := s.tasks[tid].(phase := Cleaning)]);
      && Apply(s, Timeout(tid)) == cleaning
      && (s.tasks[tid].chan.Closed? ==> Apply(s, Wake(tid)) == cleaning)
    ensures s.tasks[tid].chan.Filled? && |s.tasks[tid].chan.bytes| >= 12 && |s.tasks[tid].query| >= 12 ==>
      var s' := Apply(s, Wake(tid));
      && s' == s.(tasks := s.tasks[tid := s'.tasks[tid]])
      && s'.tasks[tid].phase.Done? && s'.tasks[tid].phase.result.Some?
      && var r := s'.tasks[tid].phase.result.value;
      && |r| == |s.tasks[tid].chan.bytes|
      && r[..2] == s.tasks[tid].query[..2] && r[2..] == s.tasks[tid].chan.bytes[2..]
  {
    var t := s.tasks[tid];
    if t.chan.Filled? && |t.chan.bytes| >= 12 && |t.query| >= 12 {
      XidDeterminesBytes(PatchXid(t.chan.bytes, XidOf(t.query)), t.query);
    }
  }

  /**
   * What becomes of a datagram. A short one, or one under an ID nobody waits for, is ignored.
   * Any other takes the entry under its ID away, whoever sent it; it is delivered if it comes
   * from the entry's upstream and the task still listens, and otherwise closes the channel.
   */
  lemma DatagramEffect(s: State, dg: Datagram)
    requires Inv(s) && s.receiver == Idle
    ensures |dg.bytes| < 12 || XidOf(dg.bytes) !in s.pending ==> Apply(s, Receive(dg)) == s
    ensures |dg.bytes| >= 12 && XidOf(dg.bytes) in s.pending ==>
      var entry, held := s.pending[XidOf(dg.bytes)], Apply(s, Receive(dg));
      && held == s.(pending := s.pending - {XidOf(dg.bytes)}, receiver := Holding(entry, dg))
      && Enabled(held, Deliver)
      && var s', task := Apply(held, Deliver), s.tasks[entry.owner];
      && s'.pending == held.pending && s'.receiver == Idle && s'.sent == s.sent
      && if dg.from == entry.upstream && (task.phase == Registered || task.phase == Waiting) then
           && s'.tasks == s.tasks[entry.owner := task.(chan := Filled(dg.bytes))]
           && s'.deliveries == s.deliveries + [Delivery(entry.owner, dg)]
         else
           && s'.tasks == s.tasks[entry.owner := task.(chan := Closed)]
           && s'.deliveries == s.deliveries
  {
    if |dg.bytes| >= 12 && XidOf(dg.bytes) in s.pending {
      assert OwnedEntry(s, XidOf(dg.bytes));
    }
  }

  // ----- What every interleaving guarantees -----

  lemma Reachable(steps: seq<Step>)
    requires LegalRun(INIT, steps)
    ensures Inv(After(INIT, steps))
  {
    RunKeepsInv(INIT, steps);
  }

  /** The map stays within its cap, and its entries have distinct unreturned owners, each under its own ID. */
  lemma EntriesAreOwned(steps: seq<Step>)
    requires LegalRun(INIT, steps)
    ensures var s := After(INIT, steps);
      && |s.pending| <= MAX_PENDING_QUERIES
      && (forall xid | xid in s.pending ::
            var owner := s.pending[xid].owner;
            && owner in s.tasks && !s.tasks[owner].phase.Done?
            && s.tasks[owner].xid == xid && s.tasks[owner].upstream == s.pending[xid].upstream)
      && (forall x, y | x in s.pending && y in s.pending && x != y :: s.pending[x].owner != s.pending[y].owner)
  {
    Reachable(steps);
    var s := After(INIT, steps);
    forall xid | xid in s.pending
      ensures OwnedEntry(s, xid)
    {
    }
    forall x, y | x in s.pending && y in s.pending && x != y
      ensures s.pending[x].owner != s.pending[y].owner
    {
      assert OwnedEntry(s, x) && OwnedEntry(s, y);
    }
  }

  /** A task is delivered at most one response, with its own ID and from its own upstream. */
  lemma DeliveriesAreGenuine(steps: seq<Step>)
    requires LegalRun(INIT, steps)
    ensures var s := After(INIT, steps);
      && (forall d | d in s.deliveries ::
            && d.tid in s.tasks && |d.dg.bytes| >= DNS_HEADER_SIZE
            && XidOf(d.dg.bytes) == s.tasks[d.tid].xid
            && d.dg.from == s.tasks[d.tid].upstream)
      && (forall i, j | 0 <= i < j < |s.deliveries| :: s.deliveries[i].tid != s.deliveries[j].tid)
  {
    Reachable(steps);
    var s := After(INIT, steps);
    forall d | d in s.deliveries
      ensures GoodDelivery(s, d)
    {
    }
  }

  /** A waiting task is never stranded: without an entry its channel is filled, closed or about to be. */
  lemma NoTaskIsStranded(steps: seq<Step>, tid: Tid)
    requires LegalRun(INIT, steps)
    requires InPhase(After(INIT, steps), tid, Waiting) && !HasEntry(After(INIT, steps), tid)
    ensures var s := After(INIT, steps);
      if s.tasks[tid].chan.Open?
      then s.receiver.Holding? && s.receiver.entry.owner == tid && Enabled(s, Deliver)
      else Enabled(s, Wake(tid))
  {
    Reachable(steps);
    var s := After(INIT, steps);
    assert GoodTask(s, tid);
  }

  /** A task's own steps before it returns. */
  function Rank(phase: Phase): nat {
    match phase
    case Registered => 3
    case Waiting => 2
    case Cleaning => 1
    case Done(_) => 0
  }

  /** Each step of a task brings it closer to returning, and no step sets another task back. */
  lemma StepsLowerRank(s: State, step: Step, tid: Tid)
    requires Enabled(s, step) && tid in s.tasks
    ensures tid in Apply(s, step).tasks
    ensures Rank(Apply(s, step).tasks[tid].phase) <= Rank(s.tasks[tid].phase)
    ensures (step.SendOk? || step.SendFail? || step.Wake? || step.Timeout? || step.Cleanup?) && step.tid == tid ==>
              Rank(Apply(s, step).tasks[tid].phase) < Rank(s.tasks[tid].phase)
  {
  }

  /** From any state a task returns by its own steps alone, of which there are at most three. */
  lemma {:induction false} EveryTaskCanReturn(s: State, tid: Tid) returns (steps: seq<Step>)
    requires tid in s.tasks
    ensures |steps| <= Rank(s.tasks[tid].phase) && LegalRun(s, steps)
    ensures tid in After(s, steps).tasks && After(s, steps).tasks[tid].phase.Done?
    ensures forall step | step in steps :: step in {SendOk(tid), Timeout(tid), Cleanup(tid)}
    decreases Rank(s.tasks[tid].phase)
  {
    steps := [];
    if !s.tasks[tid].phase.Done? {
      var step := match s.tasks[tid].phase
                  case Registered => SendOk(tid)
                  case Waiting => Timeout(tid)
                  case _ => Cleanup(tid);
      StepsLowerRank(s, step, tid);
      var rest := EveryTaskCanReturn(Apply(s, step), tid);
      steps := [step] + rest;
      assert steps[1..] == rest;
    }
  }

  /** A returned response is the one delivered to that task, under the client's own ID. */
  ghost predicate ReturnedFrom(s: State, tid: Tid, r: Bytes, d: Delivery) {
    && d in s.deliveries && d.tid == tid && tid in s.tasks
    && |s.tasks[tid].query| >= 2 && |r| == |d.dg.bytes| >= DNS_HEADER_SIZE
    && r[..2] == s.tasks[tid].query[..2]
    && r[2..] == d.dg.bytes[2..]
  }

  lemma ResultsAreDelivered(s: State, tid: Tid)
    requires Inv(s) && tid in s.tasks
    requires s.tasks[tid].phase.Done? && s.tasks[tid].phase.result.Some?
    ensures exists d :: ReturnedFrom(s, tid, s.tasks[tid].phase.result.value, d)
  {
    assert GoodTask(s, tid);
    var d :| d in s.deliveries && d.tid == tid;
    assert GoodDelivery(s, d);
    XidDeterminesBytes(s.tasks[tid].phase.result.value, s.tasks[tid].query);
    assert ReturnedFrom(s, tid, s.tasks[tid].phase.result.value, d);
  }

  // ----- A cleanup that takes another task's entry -----

  const SOME_UPSTREAM: Ip := 100
  const OTHER_HOST: Ip := 666

  /** A task with ID 7. */
  function Asking(query: Bytes, phase: Phase, chan: Channel): Task {
    Task(query, SOME_UPSTREAM, 7, phase, chan)
  }

  function AskedBy(tid: Tid, query: Bytes): SentQuery {
    SentQuery(tid, SOME_UPSTREAM, Forwarded(Asking(query, Waiting, Open)))
  }

  function Ask(tid: Tid, query: Bytes): Step {
    Register(tid, query, SOME_UPSTREAM, [7])
  }

  function AfterAsking(s: State, tid: Tid, query: Bytes): State {
    s.(tasks := s.tasks[tid := Asking(query, Waiting, Open)],
       pending := s.pending[7 := Entry(tid, SOME_UPSTREAM)],
       sent := s.sent + [AskedBy(tid, query)])
  }

  lemma AskingSteps(s: State, tid: Tid, query: Bytes)
    requires tid !in s.tasks && 7 !in s.pending && Accepted(s, query)
    ensures Enabled(s, Ask(tid, query)) && Enabled(Apply(s, Ask(tid, query)), SendOk(tid))
    ensures Apply(Apply(s, Ask(tid, query)), SendOk(tid)) == AfterAsking(s, tid, query)
  {
    var s1 := Apply(s, Ask(tid, query));
    assert s1.tasks[tid] == Asking(query, Registered, Open);
    assert s1.tasks[tid := Asking(query, Waiting, Open)] == s.tasks[tid := Asking(query, Waiting, Open)];
  }

  lemma PrependTwo(s: State, a: Step, b: Step, rest: seq<Step>)
    requires Enabled(s, a) && Enabled(Apply(s, a), b) && LegalRun(Apply(Apply(s, a), b), rest)
    ensures LegalRun(s, [a, b] + rest)
    ensures After(s, [a, b] + rest) == After(Apply(Apply(s, a), b), rest)
  {
    assert ([a, b] + rest)[1..] == [b] + rest && ([b] + rest)[1..] == rest;
  }

  /** A datagram from a wrong sender, under task 1's ID, that closes its channel. */
  function Spoof(query: Bytes): Datagram
    requires |query| >= DNS_HEADER_SIZE
  {
    Datagram(OTHER_HOST, PatchXid(query, 7))
  }

  function Spoofed(a: Bytes): State {
    State(map[1 := Asking(a, Waiting, Closed)], map[], Idle, [AskedBy(1, a)], [])
  }

  lemma SpoofingSteps(a: Bytes)
    requires |a| >= DNS_HEADER_SIZE
    ensures var s := AfterAsking(INIT, 1, a);
      && Enabled(s, Receive(Spoof(a))) && Enabled(Apply(s, Receive(Spoof(a))), Deliver)
      && Apply(Apply(s, Receive(Spoof(a))), Deliver) == Spoofed(a)
  {
    var s := AfterAsking(INIT, 1, a);
    var s1 := Apply(s, Receive(Spoof(a)));
    assert s1 == State(s.tasks, map[], Holding(Entry(1, SOME_UPSTREAM), Spoof(a)), s.sent, []);
  }

  function Stolen(a: Bytes, b: Bytes): State {
    State(map[1 := Asking(a, Done(None), Closed), 2 := Asking(b, Waiting, Closed)],
          map[], Idle, [AskedBy(1, a), AskedBy(2, b)], [])
  }

  lemma StealingSteps(a: Bytes, b: Bytes)
    ensures var s := AfterAsking(Spoofed(a), 2, b);
      && Enabled(s, Wake(1)) && Enabled(Apply(s, Wake(1)), Cleanup(1))
      && Apply(Apply(s, Wake(1)), Cleanup(1)) == Stolen(a, b)
  {
    var s := AfterAsking(Spoofed(a), 2, b);
    var s1 := Apply(s, Wake(1));
    assert s1.tasks == map[1 := Asking(a, Cleaning, Closed), 2 := Asking(b, Waiting, Open)];
    assert s1.pending == map[7 := Entry(2, SOME_UPSTREAM)];
    assert s1.pending - {7} == map[];
    assert s1.sent == [AskedBy(1, a), AskedBy(2, b)];
  }

  function StolenEntryRun(a: Bytes, b: Bytes): seq<Step>
    requires |a| >= DNS_HEADER_SIZE
  {
    [Ask(1, a), SendOk(1)] + ([Receive(Spoof(a)), Deliver] + ([Ask(2, b), SendOk(2)] + ([Wake(1), Cleanup(1)] + [])))
  }

  /**
   * Cleanup can take another task's entry: a datagram from a wrong sender closes task 1's
   * channel, task 2 draws the freed ID, and task 1's cleanup removes task 2's entry. Task 2
   * then waits without an entry, on a closed channel.
   */
  lemma CleanupCanTakeAnothersEntry(a: Bytes, b: Bytes)
    requires |a| >= DNS_HEADER_SIZE && |b| >= DNS_HEADER_SIZE
    ensures LegalRun(INIT, StolenEntryRun(a, b)) && After(INIT, StolenEntryRun(a, b)) == Stolen(a, b)
  {
    var stealing := [Wake(1), Cleanup(1)] + [];
    var reusing := [Ask(2, b), SendOk(2)] + stealing;
    var spoofing := [Receive(Spoof(a)), Deliver] + reusing;
    StealingSteps(a, b);
    PrependTwo(AfterAsking(Spoofed(a), 2, b), Wake(1), Cleanup(1), []);
    AskingSteps(Spoofed(a), 2, b);
    PrependTwo(Spoofed(a), Ask(2, b), SendOk(2), stealing);
    SpoofingSteps(a);
    PrependTwo(AfterAsking(INIT, 1, a), Receive(Spoof(a)), Deliver, reusing);
    AskingSteps(INIT, 1, a);
    PrependTwo(INIT, Ask(1, a), SendOk(1), spoofing);
  }

  // ----- Drawing a transaction ID -----

  /** Below the cap at least 61441 of the 65536 IDs are free. */
  lemma ManyFreeXids(pending: map<Xid, Entry>)
    requires |pending| < MAX_PENDING_QUERIES
    ensures |Range(0, U16_SIZE) - pending.Keys| >= 61441
  {
    RangeSize(0, U16_SIZE);
    var used: set<int> := pending.Keys;
    assert used <= Range(0, U16_SIZE);
    SubsetSize(used, Range(0, U16_SIZE));
  }

  /** Below the cap, any 4096 pairwise distinct draws include a free ID. */
  lemma DistinctDrawsReachFree(pending: map<Xid, Entry>, draws: seq<Xid>)
    requires |pending| < MAX_PENDING_QUERIES <= |draws|
    requires forall i, j | 0 <= i < j < MAX_PENDING_QUERIES :: draws[i] != draws[j]
    ensures exists k | 0 <= k < MAX_PENDING_QUERIES :: draws[k] !in pending
  {
    if forall k | 0 <= k < MAX_PENDING_QUERIES :: draws[k] in pending {
      var nth: int -> int := i => if 0 <= i < |draws| then draws[i] else 0;
      RangeSize(0, MAX_PENDING_QUERIES);
      InjectiveImageSize(Range(0, MAX_PENDING_QUERIES), nth, pending.Keys);
    }
  }

  /** Too short or at the cap; under this ID, the `drawn`-th; or, holding the lock, about to draw once more. */
  datatype Registration = Refused | Entered(xid: Xid, drawn: nat) | Redrawing

  /** The shared map, with its two locked operations. */
  class PendingQueries {
    var entries: map<Xid, Entry>

    constructor ()
      ensures entries == map[]
    {
      entries := map[];
    }

    /**
     * Redraws until the ID is free; `draws` is as much as has been drawn of the random IDs.
     * The map it leaves is the one the protocol's step leaves, whatever the rest of the state.
     */
    method Register(owner: Tid, query: Bytes, upstream: Ip, draws: seq<Xid>, ghost s: State)
      returns (r: Registration)
      requires s.pending == entries && owner !in s.tasks
      modifies this
      ensures r.Refused? <==> |query| < 12 || |old(entries)| >= 4096
      ensures r.Redrawing? ==> forall id | id in draws :: id in old(entries)
      ensures !r.Entered? ==> entries == old(entries)
      ensures r.Entered? ==>
        && entries == old(entries)[r.xid := Entry(owner, upstream)]
        && 0 < r.drawn <= |draws| && r.xid == draws[r.drawn - 1]
        && DrawsUntilFree(old(entries), draws[..r.drawn])
      ensures !r.Redrawing? ==>
        var step := Step.Register(owner, query, upstream, if r.Entered? then draws[..r.drawn] else []);
        Enabled(s, step) && entries == Apply(s, step).pending
    {
      if |query| < DNS_HEADER_SIZE || |entries| >= MAX_PENDING_QUERIES {
        return Refused;
      }
      for k := 0 to |draws|
        invariant entries == old(entries)
        invariant forall i | 0 <= i < k :: draws[i] in entries
      {
        if draws[k] !in entries {
          entries := entries[draws[k] := Entry(owner, upstream)];
          return Entered(draws[k], k + 1);
        }
      }
      r := Redrawing;
    }

    /** The receiver's and the cleanups' removal, by ID alone. */
    method Remove(xid: Xid) returns (entry: Option<Entry>)
      modifies this
      ensures entries == old(entries) - {xid}
      ensures entry == if xid in old(entries) then Some(old(entries)[xid]) else None
    {
      entry := if xid in entries then Some(entries[xid]) else None;
      entries := entries - {xid};
    }
  }
}
