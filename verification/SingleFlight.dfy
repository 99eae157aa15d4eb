/**
 * The per-key lock of the DNS client, as a machine over all interleavings of exchange operations.
 * An operation that finds a key free owns it; the others wait for its channel, read the cache
 * again, and go on without the lock.  Releasing is two steps: delete the entry, close the channel.
 */
module SingleFlight {
  import opened Common

  datatype Pc =
    | Begin                          // about to LoadOrStore its channel
    | Waiting(chan: nat)             // blocked on another operation's channel or its context
    | Looking(owned: Option<nat>)    // about to read the cache
    | Asking(owned: Option<nat>)     // the transport has been asked
    | Releasing(chan: nat)           // entry deleted, channel not closed yet
    | Delivering                     // about to return or call back
    | Ended

  /**
   * `cached` is false for a query that bypasses the cache; `async` is an ExchangeAsync that has not been re-run yet.
   */
  datatype Op<K> = Op(key: K, cached: bool, async: bool, pc: Pc, calls: nat)

  datatype State<K> = State(ops: seq<Op<K>>, lock: map<K, nat>, chans: nat, closed: set<nat>)

  datatype Label<K> =
    | Spawn(key: K, cached: bool, async: bool)
    | Reject(op: nat)     // no question, or a query type the strategy excludes: answered without the lock
    | Enter(op: nat)      // LoadOrStore
    | Wake(op: nat)       // the awaited channel is closed
    | GiveUp(op: nat)     // the waiter's context ends
    | Finish(op: nat)     // cache hit, loopback, rejection, transport answer or transport error
    | Miss(op: nat)       // nothing usable in the cache
    | Close(op: nat)      // second half of a release
    | Deliver(op: nat)    // return, or the callback

  predicate Enabled<K>(s: State<K>, l: Label<K>) {
    match l
    case Spawn(_, _, _) => true
    case Reject(o) => o < |s.ops| && s.ops[o].pc.Begin?
    case Enter(o) => o < |s.ops| && s.ops[o].pc.Begin?
    case Wake(o) => o < |s.ops| && s.ops[o].pc.Waiting? && s.ops[o].pc.chan in s.closed
    case GiveUp(o) => o < |s.ops| && s.ops[o].pc.Waiting?
    case Finish(o) => o < |s.ops| && (s.ops[o].pc.Looking? || s.ops[o].pc.Asking?)
    case Miss(o) => o < |s.ops| && s.ops[o].pc.Looking?
    case Close(o) => o < |s.ops| && s.ops[o].pc.Releasing?
    case Deliver(o) => o < |s.ops| && s.ops[o].pc.Delivering?
  }

  function Goto<K>(s: State<K>, o: nat, pc: Pc): State<K>
    requires o < |s.ops|
  {
    s.(ops := s.ops[o := s.ops[o].(pc := pc)])
  }

  function Step<K(==)>(s: State<K>, l: Label<K>): State<K>
    requires Enabled(s, l)
  {
    match l
    case Spawn(key, cached, async) => s.(ops := s.ops + [Op(key, cached, async, Begin, 0)])
    case Reject(o) => Goto(s, o, Delivering)
    case Enter(o) =>
      var op := s.ops[o];
      if !op.cached then Goto(s, o, Asking(None))
      else if op.key !in s.lock then
        Goto(s, o, Looking(Some(s.chans))).(lock := s.lock[op.key := s.chans], chans := s.chans + 1)
      else if op.async then s.(ops := s.ops[o := op.(async := false)])
      else Goto(s, o, Waiting(s.lock[op.key]))
    case Wake(o) => Goto(s, o, Looking(None))
    case GiveUp(o) => Goto(s, o, Delivering)
    case Finish(o) =>
      if s.ops[o].pc.owned.None? then Goto(s, o, Delivering)
      else Goto(s, o, Releasing(s.ops[o].pc.owned.value)).(lock := s.lock - {s.ops[o].key})
    case Miss(o) => Goto(s, o, Asking(s.ops[o].pc.owned))
    case Close(o) => Goto(s, o, Delivering).(closed := s.closed + {s.ops[o].pc.chan})
    case Deliver(o) => s.(ops := s.ops[o := s.ops[o].(pc := Ended, calls := s.ops[o].calls + 1)])
  }

  /** The channel an operation has to close. */
  function Owned(pc: Pc): Option<nat> {
    match pc
    case Looking(owned) => owned
    case Asking(owned) => owned
    case Releasing(chan) => Some(chan)
    case _ => None
  }

  predicate Holds<K>(op: Op<K>) {
    (op.pc.Looking? || op.pc.Asking?) && op.pc.owned.Some?
  }

  ghost predicate Owner<K>(s: State<K>, o: int, chan: nat) {
    0 <= o < |s.ops| && Owned(s.ops[o].pc) == Some(chan)
  }

  ghost predicate HolderOf<K>(s: State<K>, o: int, key: K) {
    0 <= o < |s.ops| && Holds(s.ops[o]) && s.ops[o].key == key
  }

  /** A channel that is closed, or that some operation will close. */
  ghost predicate Answerable<K>(s: State<K>, chan: nat) {
    chan in s.closed || exists o :: Owner(s, o, chan)
  }

  /**
   * A holder's entry is its own channel; an owned channel is open; the result is delivered exactly once, at the end.
   */
  ghost predicate OpOk<K>(s: State<K>, op: Op<K>) {
    && (Holds(op) ==> op.key in s.lock && Some(s.lock[op.key]) == Owned(op.pc))
    && (Owned(op.pc).Some? ==> Owned(op.pc).value < s.chans && Owned(op.pc).value !in s.closed)
    && (op.calls == if op.pc.Ended? then 1 else 0)
  }

  ghost predicate OwnersDiffer<K>(s: State<K>) {
    forall o, p :: 0 <= o < p < |s.ops| && Owned(s.ops[o].pc).Some? ==> Owned(s.ops[o].pc) != Owned(s.ops[p].pc)
  }

  ghost predicate LockOk<K(!new)>(s: State<K>) {
    && (forall key :: key in s.lock ==> exists o :: HolderOf(s, o, key))
    && (forall chan :: chan in s.closed ==> chan < s.chans)
  }

  ghost predicate ChansOk<K>(s: State<K>) {
    && (forall chan: nat :: chan < s.chans ==> Answerable(s, chan))
    && (forall o :: 0 <= o < |s.ops| && s.ops[o].pc.Waiting? ==> s.ops[o].pc.chan < s.chans)
  }

  ghost predicate Inv<K(!new)>(s: State<K>) {
    && (forall o :: 0 <= o < |s.ops| ==> OpOk(s, s.ops[o]))
    && OwnersDiffer(s)
    && LockOk(s)
    && ChansOk(s)
  }

  predicate Init<K>(s: State<K>) {
    s.ops == [] && s.lock == map[] && s.chans == 0 && s.closed == {}
  }

  /** Two holders of one key would own the same channel. */
  lemma OneHolder<K(!new)>(s: State<K>, o: nat, p: nat)
    requires Inv(s) && o < |s.ops| && p < |s.ops|
    ensures Holds(s.ops[o]) && Holds(s.ops[p]) && s.ops[o].key == s.ops[p].key ==> o == p
  {
    assert OpOk(s, s.ops[o]) && OpOk(s, s.ops[p]);
  }

  /** A step does not disturb the operations that do not take it. */
  lemma OtherStep<K(!new)>(s: State<K>, l: Label<K>, p: nat)
    requires Inv(s) && Enabled(s, l) && p < |s.ops| && (l.Spawn? || l.op != p)
    ensures Step(s, l).ops[p] == s.ops[p] && OpOk(Step(s, l), s.ops[p])
  {
    hide LockOk, ChansOk;
    assert OpOk(s, s.ops[p]);
    if l.Finish? {
      OneHolder(s, p, l.op);
    } else if l.Close? {
      assert Owned(s.ops[p].pc).Some? ==> Owned(s.ops[p].pc) != Owned(s.ops[l.op].pc);
    }
  }

  lemma OpStep<K(!new)>(s: State<K>, l: Label<K>, p: nat)
    requires Inv(s) && Enabled(s, l) && p < |Step(s, l).ops|
    ensures OpOk(Step(s, l), Step(s, l).ops[p])
  {
    hide ChansOk, OwnersDiffer;
    if p < |s.ops| {
      assert OpOk(s, s.ops[p]);
      if l.Spawn? || l.op != p {
        OtherStep(s, l, p);
      }
    }
  }

  /** An operation keeps the channel it owns, gives it up, or takes a new one. */
  lemma OwnedStep<K(!new)>(s: State<K>, l: Label<K>, p: nat)
    requires Inv(s) && Enabled(s, l) && p < |Step(s, l).ops|
    ensures var owned := Owned(Step(s, l).ops[p].pc);
            || owned == None
            || (p < |s.ops| && owned == Owned(s.ops[p].pc))
            || (l == Enter(p) && owned == Some(s.chans))
  {
  }

  lemma OwnersStep<K(!new)>(s: State<K>, l: Label<K>)
    requires Inv(s) && Enabled(s, l)
    ensures OwnersDiffer(Step(s, l))
  {
    hide Step;
    forall p | 0 <= p < |Step(s, l).ops|
      ensures var owned := Owned(Step(s, l).ops[p].pc);
              || owned == None
              || (p < |s.ops| && owned == Owned(s.ops[p].pc) && owned.value < s.chans)
              || (l == Enter(p) && owned == Some(s.chans))
    {
      OwnedStep(s, l, p);
      assert p < |s.ops| ==> OpOk(s, s.ops[p]);
    }
  }

  lemma LockStep<K(!new)>(s: State<K>, l: Label<K>)
    requires Inv(s) && Enabled(s, l)
    ensures LockOk(Step(s, l))
  {
    var t := Step(s, l);
    forall key | key in t.lock
      ensures exists o :: HolderOf(t, o, key)
    {
      if key in s.lock {
        var o :| HolderOf(s, o, key);
        assert HolderOf(t, o, key);
      } else {
        assert HolderOf(t, l.op, key);
      }
    }
    if l.Close? {
      assert OpOk(s, s.ops[l.op]);
    }
  }

  lemma ChansStep<K(!new)>(s: State<K>, l: Label<K>)
    requires Inv(s) && Enabled(s, l)
    ensures ChansOk(Step(s, l))
  {
    var t := Step(s, l);
    forall chan: nat | chan < t.chans
      ensures Answerable(t, chan)
    {
      if chan == s.chans {
        assert Owner(t, l.op, chan);
      } else if chan !in s.closed {
        assert Answerable(s, chan);
        var o :| Owner(s, o, chan);
        assert Owner(t, o, chan) || chan in t.closed;
      }
    }
    if l.Enter? && s.ops[l.op].key in s.lock {
      var o :| HolderOf(s, o, s.ops[l.op].key);
      assert OpOk(s, s.ops[o]);
    }
  }

  lemma StepKeepsInv<K(!new)>(s: State<K>, l: Label<K>)
    requires Inv(s) && Enabled(s, l)
    ensures Inv(Step(s, l))
  {
    hide Step, OpOk, LockOk, ChansOk, OwnersDiffer;
    forall p | 0 <= p < |Step(s, l).ops|
      ensures OpOk(Step(s, l), Step(s, l).ops[p])
    {
      OpStep(s, l, p);
    }
    OwnersStep(s, l);
    LockStep(s, l);
    ChansStep(s, l);
  }

  ghost predicate Runs<K(!new)>(s: State<K>, labels: seq<Label<K>>)
    decreases |labels|
  {
    labels == [] || (Enabled(s, labels[0]) && Runs(Step(s, labels[0]), labels[1..]))
  }

  ghost function After<K(!new)>(s: State<K>, labels: seq<Label<K>>): State<K>
    requires Runs(s, labels)
    decreases |labels|
  {
    if labels == [] then s else After(Step(s, labels[0]), labels[1..])
  }

  lemma {:induction false} RunKeepsInv<K(!new)>(s: State<K>, labels: seq<Label<K>>)
    requires Runs(s, labels)
    requires Inv(s) || Init(s)
    ensures Inv(After(s, labels))
    decreases |labels|
  {
    if labels != [] {
      StepKeepsInv(s, labels[0]);
      RunKeepsInv(Step(s, labels[0]), labels[1..]);
    }
  }

  /**
   * A release touches nothing but its own: an entry disappears only when its holder deletes it, and
   * a channel is closed only by its owner, while still open (closing twice would panic).
   */
  lemma ReleaseIsOwn<K(!new)>(s: State<K>, l: Label<K>, key: K)
    requires Inv(s) && Enabled(s, l)
    ensures l.Close? ==> s.ops[l.op].pc.chan !in s.closed
    ensures Step(s, l).closed != s.closed ==> l.Close? && Step(s, l).closed == s.closed + {s.ops[l.op].pc.chan}
    ensures key in s.lock && (key !in Step(s, l).lock || Step(s, l).lock[key] != s.lock[key])
            ==> l.Finish? && HolderOf(s, l.op, key) && Owner(s, l.op, s.lock[key]) && key !in Step(s, l).lock
  {
    if l.Close? || l.Finish? {
      assert OpOk(s, s.ops[l.op]);
    }
  }

  ghost predicate AllEnded<K>(s: State<K>) {
    forall o :: 0 <= o < |s.ops| ==> s.ops[o].pc.Ended?
  }

  lemma EntryIsHeld<K(!new)>(s: State<K>, key: K)
    requires LockOk(s) && key in s.lock
    ensures !AllEnded(s)
  {
    var o :| HolderOf(s, o, key);
    assert !s.ops[o].pc.Ended?;
  }

  /**
   * When every operation has ended the table is empty, every channel made is closed, and every result was delivered
   * once.
   */
  lemma NothingLeft<K(!new)>(s: State<K>)
    requires Inv(s) && AllEnded(s)
    ensures s.lock == map[]
    ensures forall chan: nat :: chan < s.chans <==> chan in s.closed
    ensures forall o :: 0 <= o < |s.ops| ==> s.ops[o].calls == 1
  {
    if key :| key in s.lock {
      EntryIsHeld(s, key);
    }
    forall chan: nat | chan < s.chans
      ensures chan in s.closed
    {
      assert Answerable(s, chan);
    }
    forall o | 0 <= o < |s.ops|
      ensures s.ops[o].calls == 1
    {
      assert OpOk(s, s.ops[o]);
    }
  }

  function NextLabel<K>(op: Op<K>, o: nat): Label<K>
    requires !op.pc.Waiting? && !op.pc.Ended?
  {
    match op.pc
    case Begin => Enter(o)
    case Looking(_) => Miss(o)
    case Asking(_) => Finish(o)
    case Releasing(_) => Close(o)
    case Delivering => Deliver(o)
  }

  /**
   * No deadlock: while an operation has not ended, one can move, even if no new operation arrives and no context ends.
   */
  lemma SomeoneCanMove<K(!new)>(s: State<K>, o: nat) returns (l: Label<K>)
    requires Inv(s) && o < |s.ops| && !s.ops[o].pc.Ended?
    ensures Enabled(s, l) && !l.Spawn? && !l.GiveUp?
  {
    if !s.ops[o].pc.Waiting? {
      return NextLabel(s.ops[o], o);
    }
    var chan := s.ops[o].pc.chan;
    if chan in s.closed {
      return Wake(o);
    }
    assert Answerable(s, chan);
    var p :| Owner(s, p, chan);
    return NextLabel(s.ops[p], p);
  }

  function OpRank<K>(op: Op<K>): nat {
    match op.pc
    case Begin => if op.async then 7 else 6
    case Waiting(_) => 5
    case Looking(_) => 4
    case Asking(_) => 3
    case Releasing(_) => 2
    case Delivering => 1
    case Ended => 0
  }

  function Rank<K>(ops: seq<Op<K>>): nat {
    if ops == [] then 0 else OpRank(ops[0]) + Rank(ops[1..])
  }

  lemma {:induction false} RankUpdate<K>(ops: seq<Op<K>>, o: nat, op: Op<K>)
    requires o < |ops|
    ensures Rank(ops[o := op]) == Rank(ops) - OpRank(ops[o]) + OpRank(op)
  {
    if o == 0 {
      assert ops[o := op][1..] == ops[1..];
    } else {
      RankUpdate(ops[1..], o - 1, op);
      assert ops[o := op][1..] == ops[1..][o - 1 := op];
    }
  }

  lemma StepLowersRank<K(!new)>(s: State<K>, l: Label<K>)
    requires Enabled(s, l) && !l.Spawn?
    ensures Rank(Step(s, l).ops) < Rank(s.ops)
  {
    RankUpdate(s.ops, l.op, Step(s, l).ops[l.op]);
    assert Step(s, l).ops == s.ops[l.op := Step(s, l).ops[l.op]];
  }

  ghost predicate NoSpawn<K>(labels: seq<Label<K>>) {
    forall i :: 0 <= i < |labels| ==> !labels[i].Spawn?
  }

  lemma {:induction false} RunsAreFinite<K(!new)>(s: State<K>, labels: seq<Label<K>>)
    requires Runs(s, labels) && NoSpawn(labels)
    ensures |labels| + Rank(After(s, labels).ops) <= Rank(s.ops)
    decreases |labels|
  {
    if labels != [] {
      StepLowersRank(s, labels[0]);
      RunsAreFinite(Step(s, labels[0]), labels[1..]);
    }
  }

  ghost predicate Stuck<K(!new)>(s: State<K>) {
    forall l :: Enabled(s, l) ==> l.Spawn? || l.GiveUp?
  }

  /**
   * Every exchange ends: once no more operations arrive, a run has at most seven steps per operation, and
   * one that can go no further has delivered every result exactly once and left no entry behind.
   */
  lemma EveryExchangeEnds<K(!new)>(init: State<K>, before: seq<Label<K>>, labels: seq<Label<K>>)
    requires Init(init) && Runs(init, before)
    requires Runs(After(init, before), labels) && NoSpawn(labels)
    ensures |labels| <= 7 * |After(init, before).ops|
    ensures Stuck(After(After(init, before), labels)) ==> AllEnded(After(After(init, before), labels))
    ensures var s := After(After(init, before), labels);
            AllEnded(s) ==> s.lock == map[] && forall o :: 0 <= o < |s.ops| ==> s.ops[o].calls == 1
  {
    var middle := After(init, before);
    RunKeepsInv(init, before);
    RunKeepsInv(middle, labels);
    RunsAreFinite(middle, labels);
    RankBound(middle.ops);
    var s := After(middle, labels);
    if o :| 0 <= o < |s.ops| && !s.ops[o].pc.Ended? {
      var l := SomeoneCanMove(s, o);
    } else {
      NothingLeft(s);
    }
  }

  lemma {:induction false} RankBound<K>(ops: seq<Op<K>>)
    ensures Rank(ops) <= 7 * |ops|
  {
    if ops != [] {
      RankBound(ops[1..]);
    }
  }

  // ---- one flight per key -----------------------------------------------------------------------

  /** A run can be cut after any label. */
  lemma {:induction false} RunSplits<K(!new)>(s: State<K>, labels: seq<Label<K>>, i: nat)
    requires Runs(s, labels) && i < |labels|
    ensures Runs(s, labels[..i]) && Enabled(After(s, labels[..i]), labels[i])
    ensures Runs(s, labels[..i + 1]) && After(s, labels[..i + 1]) == Step(After(s, labels[..i]), labels[i])
    decreases |labels|
  {
    var rest, t := labels[1..], Step(s, labels[0]);
    if i == 0 {
      assert labels[..1] == [labels[0]] && labels[..1][1..] == [];
    } else {
      RunSplits(t, rest, i - 1);
      assert labels[..i][1..] == rest[..i - 1] && labels[..i + 1][1..] == rest[..i] && rest[i - 1] == labels[i];
    }
  }

  /** The state after the first `i` labels. */
  ghost function StateAt<K(!new)>(init: State<K>, labels: seq<Label<K>>, i: nat): State<K>
    requires Runs(init, labels) && i <= |labels|
  {
    RunPrefix(init, labels, i);
    After(init, labels[..i])
  }

  lemma RunPrefix<K(!new)>(init: State<K>, labels: seq<Label<K>>, i: nat)
    requires Runs(init, labels) && i <= |labels|
    ensures Runs(init, labels[..i])
  {
    if i < |labels| {
      RunSplits(init, labels, i);
    } else {
      assert labels[..i] == labels;
    }
  }

  /** Operations keep their number, key and kind; they only leave the asynchronous attempt for a blocking one. */
  ghost predicate SameOp<K>(op: Op<K>, op': Op<K>) {
    op'.key == op.key && op'.cached == op.cached && (op'.async ==> op.async)
  }

  lemma StepKeepsOps<K(!new)>(s: State<K>, l: Label<K>)
    requires Enabled(s, l)
    ensures |s.ops| <= |Step(s, l).ops| && s.closed <= Step(s, l).closed
    ensures forall o :: 0 <= o < |s.ops| ==> SameOp(s.ops[o], Step(s, l).ops[o])
  {
  }

  lemma {:induction false} RunKeepsOps<K(!new)>(init: State<K>, labels: seq<Label<K>>, i: nat, j: nat)
    requires Runs(init, labels) && i <= j <= |labels|
    ensures var s, t := StateAt(init, labels, i), StateAt(init, labels, j);
      |s.ops| <= |t.ops| && s.closed <= t.closed && forall o :: 0 <= o < |s.ops| ==> SameOp(s.ops[o], t.ops[o])
    decreases j - i
  {
    if i < j {
      hide Step, SameOp;
      RunKeepsOps(init, labels, i, j - 1);
      RunSplits(init, labels, j - 1);
      var m := StateAt(init, labels, j - 1);
      StepKeepsOps(m, labels[j - 1]);
      forall o | 0 <= o < |StateAt(init, labels, i).ops|
        ensures SameOp(StateAt(init, labels, i).ops[o], StateAt(init, labels, j).ops[o])
      {
        SameOpChain(StateAt(init, labels, i).ops[o], m.ops[o], StateAt(init, labels, j).ops[o]);
      }
    }
  }

  lemma SameOpChain<K>(a: Op<K>, b: Op<K>, c: Op<K>)
    requires SameOp(a, b) && SameOp(b, c)
    ensures SameOp(a, c)
  {
  }

  /** At some moment up to `n` operation `o` was there, and the entry of its key was `chan`. */
  ghost predicate FoundHeld<K(!new)>(init: State<K>, labels: seq<Label<K>>, n: nat, o: nat, chan: nat)
    requires Runs(init, labels) && n <= |labels|
  {
    exists i :: 0 <= i <= n && HeldAt(StateAt(init, labels, i), o, chan)
  }

  ghost predicate HeldAt<K>(s: State<K>, o: nat, chan: nat) {
    o < |s.ops| && s.ops[o].key in s.lock && s.lock[s.ops[o].key] == chan
  }

  /** At some moment up to `n` operation `o` was about to read the cache. */
  ghost predicate Looked<K(!new)>(init: State<K>, labels: seq<Label<K>>, n: nat, o: nat)
    requires Runs(init, labels) && n <= |labels|
  {
    exists i :: 0 <= i <= n && LooksAt(StateAt(init, labels, i), o)
  }

  ghost predicate LooksAt<K>(s: State<K>, o: nat) {
    o < |s.ops| && s.ops[o].pc.Looking?
  }

  /** What a cached operation has behind it, by where it stands. */
  ghost predicate Behind<K(!new)>(init: State<K>, labels: seq<Label<K>>, n: nat, o: nat)
    requires Runs(init, labels) && n <= |labels|
  {
    var s := StateAt(init, labels, n);
    o < |s.ops| && s.ops[o].cached ==>
      && (s.ops[o].pc.Waiting? ==> FoundHeld(init, labels, n, o, s.ops[o].pc.chan))
      && (OnItsOwn(s.ops[o].pc) ==>
            exists chan :: chan in s.closed && FoundHeld(init, labels, n, o, chan))
      && (s.ops[o].pc.Asking? ==> Looked(init, labels, n, o))
      && (Answering(s.ops[o].pc) ==> Looked(init, labels, n, o) || Excused(labels, n, o))
  }

  predicate Answering(pc: Pc) {
    pc.Releasing? || pc.Delivering? || pc.Ended?
  }

  /** The operation was answered without the lock, or its context ended while it waited. */
  ghost predicate Excused<K(!new)>(labels: seq<Label<K>>, n: nat, o: nat) {
    exists i :: 0 <= i < n && i < |labels| && (labels[i] == Reject(o) || labels[i] == GiveUp(o))
  }

  /** Reading the cache or asking the transport without holding the key. */
  predicate OnItsOwn(pc: Pc) {
    (pc.Looking? || pc.Asking?) && pc.owned.None?
  }

  lemma FoundLater<K(!new)>(init: State<K>, labels: seq<Label<K>>, n: nat, o: nat)
    requires Runs(init, labels) && n < |labels|
    ensures forall chan :: FoundHeld(init, labels, n, o, chan) ==> FoundHeld(init, labels, n + 1, o, chan)
    ensures Looked(init, labels, n, o) ==> Looked(init, labels, n + 1, o)
    ensures Excused(labels, n, o) || labels[n] == Reject(o) || labels[n] == GiveUp(o) ==> Excused(labels, n + 1, o)
  {
    hide HeldAt, LooksAt;
  }

  lemma FoundNow<K(!new)>(init: State<K>, labels: seq<Label<K>>, n: nat, o: nat)
    requires Runs(init, labels) && n <= |labels|
    ensures forall chan :: HeldAt(StateAt(init, labels, n), o, chan) ==> FoundHeld(init, labels, n, o, chan)
    ensures LooksAt(StateAt(init, labels, n), o) ==> Looked(init, labels, n, o)
  {
    hide HeldAt, LooksAt;
  }

  lemma BehindStep<K(!new)>(init: State<K>, labels: seq<Label<K>>, n: nat, o: nat)
    requires Runs(init, labels) && n < |labels| && Behind(init, labels, n, o)
    ensures Behind(init, labels, n + 1, o)
  {
    RunSplits(init, labels, n);
    FoundLater(init, labels, n, o);
    FoundNow(init, labels, n, o);
    var s, l, t := StateAt(init, labels, n), labels[n], StateAt(init, labels, n + 1);
    MovesStep(s, l, o);
    hide FoundHeld, Looked, StateAt, Runs, After, Step, HeldAt, LooksAt, Enabled, Excused;
    assert t == Step(s, l);
  }

  /** How an operation comes to wait, to go on without the key, and to ask. */
  lemma MovesStep<K(!new)>(s: State<K>, l: Label<K>, o: nat)
    requires Enabled(s, l)
    ensures s.closed <= Step(s, l).closed
    ensures o < |Step(s, l).ops| && Step(s, l).ops[o].cached ==>
      var pc := Step(s, l).ops[o].pc;
      && (pc.Waiting? ==> HeldAt(s, o, pc.chan) || (o < |s.ops| && s.ops[o].cached && s.ops[o].pc == pc))
      && (OnItsOwn(pc) ==>
            o < |s.ops| && s.ops[o].cached
            && (OnItsOwn(s.ops[o].pc) || (s.ops[o].pc.Waiting? && s.ops[o].pc.chan in s.closed)))
      && (pc.Asking? ==> o < |s.ops| && s.ops[o].cached && (LooksAt(s, o) || s.ops[o].pc.Asking?))
      && (Answering(pc) ==>
            || l == Reject(o) || l == GiveUp(o)
            || (o < |s.ops| && s.ops[o].cached && (LooksAt(s, o) || s.ops[o].pc.Asking? || Answering(s.ops[o].pc))))
  {
  }

  lemma {:induction false} AlwaysBehind<K(!new)>(init: State<K>, labels: seq<Label<K>>, n: nat, o: nat)
    requires Init(init) && Runs(init, labels) && n <= |labels|
    ensures Behind(init, labels, n, o)
  {
    if n > 0 {
      AlwaysBehind(init, labels, n - 1, o);
      BehindStep(init, labels, n - 1, o);
    } else {
      assert StateAt(init, labels, 0) == init;
    }
  }

  /**
   * Single flight: in every run, a cached operation that reads the cache or asks the transport either holds its key, as
   * the only one, or has found the key held by another after it began, and that one has let go since.
   */
  lemma SingleFlightHolds<K(!new)>(init: State<K>, labels: seq<Label<K>>, o: nat)
    requires Init(init) && Runs(init, labels) && o < |After(init, labels).ops|
    ensures var s := After(init, labels);
      s.ops[o].cached && (s.ops[o].pc.Looking? || s.ops[o].pc.Asking?) ==>
        || (Holds(s.ops[o]) && forall p :: HolderOf(s, p, s.ops[o].key) ==> p == o)
        || exists i, chan, p :: 0 <= i <= |labels| && HeldAt(StateAt(init, labels, i), o, chan) && chan in s.closed
             && p != o && HolderOf(StateAt(init, labels, i), p, s.ops[o].key)
             && Owner(StateAt(init, labels, i), p, chan)
  {
    assert labels[..|labels|] == labels;
    var s := After(init, labels);
    RunKeepsInv(init, labels);
    AlwaysBehind(init, labels, |labels|, o);
    if s.ops[o].cached && OnItsOwn(s.ops[o].pc) {
      var chan :| chan in s.closed && FoundHeld(init, labels, |labels|, o, chan);
      var i :| 0 <= i <= |labels| && HeldAt(StateAt(init, labels, i), o, chan);
      var p := HeldByOther(init, labels, i, o, chan);
    } else if Holds(s.ops[o]) {
      forall p | HolderOf(s, p, s.ops[o].key) ensures p == o {
        OneHolder(s, o, p);
      }
    }
  }

  /** The holder of that entry is another operation: this one never held the key. */
  lemma HeldByOther<K(!new)>(init: State<K>, labels: seq<Label<K>>, i: nat, o: nat, chan: nat) returns (p: nat)
    requires Init(init) && Runs(init, labels) && i <= |labels| && HeldAt(StateAt(init, labels, i), o, chan)
    requires o < |After(init, labels).ops| && OnItsOwn(After(init, labels).ops[o].pc)
    ensures p != o && HolderOf(StateAt(init, labels, i), p, After(init, labels).ops[o].key)
    ensures Owner(StateAt(init, labels, i), p, chan)
  {
    var s := StateAt(init, labels, i);
    RunPrefix(init, labels, i);
    RunKeepsInv(init, labels[..i]);
    RunKeepsOps(init, labels, i, |labels|);
    assert labels[..|labels|] == labels;
    var q :| HolderOf(s, q, s.ops[o].key);
    assert OpOk(s, s.ops[q]);
    p := q;
    if p == o {
      OwnerStays(init, labels, i, |labels|, o);
    }
  }

  /** An operation that has held its key either holds it, or is past asking. */
  lemma {:induction false} OwnerStays<K(!new)>(init: State<K>, labels: seq<Label<K>>, i: nat, j: nat, o: nat)
    requires Runs(init, labels) && i <= j <= |labels|
    requires o < |StateAt(init, labels, i).ops| && Holds(StateAt(init, labels, i).ops[o])
    ensures o < |StateAt(init, labels, j).ops|
    ensures var pc := StateAt(init, labels, j).ops[o].pc;
      Holds(StateAt(init, labels, j).ops[o]) || pc.Releasing? || pc.Delivering? || pc.Ended?
    decreases j - i
  {
    if i < j {
      OwnerStays(init, labels, i, j - 1, o);
      RunSplits(init, labels, j - 1);
    }
  }

  /**
   * And a cached operation that asks the transport has read the cache before, as has one that has ended, unless it was
   * answered without the lock or gave up waiting.
   */
  lemma AsksAfterLooking<K(!new)>(init: State<K>, labels: seq<Label<K>>, o: nat)
    requires Init(init) && Runs(init, labels) && o < |After(init, labels).ops|
    ensures var op := After(init, labels).ops[o];
      && (op.cached && op.pc.Asking? ==> exists i :: 0 <= i <= |labels| && LooksAt(StateAt(init, labels, i), o))
      && (op.cached && op.pc.Ended? && !Excused(labels, |labels|, o) ==>
            exists i :: 0 <= i <= |labels| && LooksAt(StateAt(init, labels, i), o))
  {
    assert labels[..|labels|] == labels;
    AlwaysBehind(init, labels, |labels|, o);
  }

  /**
   * A query that bypasses the cache stays away from it and from the lock, and an asynchronous attempt does not wait.
   */
  ghost predicate KeepsOut<K>(op: Op<K>) {
    && (!op.cached ==> op.pc.Begin? || op.pc == Asking(None) || op.pc.Delivering? || op.pc.Ended?)
    && (op.async ==> !op.pc.Waiting?)
  }

  lemma KeepOutStep<K(!new)>(s: State<K>, l: Label<K>)
    requires Enabled(s, l) && forall o :: 0 <= o < |s.ops| ==> KeepsOut(s.ops[o])
    ensures forall o :: 0 <= o < |Step(s, l).ops| ==> KeepsOut(Step(s, l).ops[o])
  {
    forall o | 0 <= o < |Step(s, l).ops| ensures KeepsOut(Step(s, l).ops[o]) {
      assert o < |s.ops| ==> KeepsOut(s.ops[o]);
    }
  }

  lemma {:induction false} OthersKeepOut<K(!new)>(init: State<K>, labels: seq<Label<K>>, n: nat)
    requires Init(init) && Runs(init, labels) && n <= |labels|
    ensures forall o :: 0 <= o < |StateAt(init, labels, n).ops| ==> KeepsOut(StateAt(init, labels, n).ops[o])
  {
    if n > 0 {
      OthersKeepOut(init, labels, n - 1);
      RunSplits(init, labels, n - 1);
      KeepOutStep(StateAt(init, labels, n - 1), labels[n - 1]);
      hide Step, KeepsOut;
    } else {
      assert StateAt(init, labels, 0) == init;
    }
  }

  /** A waiting operation can give up at any time, and touches nothing shared. */
  lemma WaitersMayLeave<K(!new)>(s: State<K>, o: nat)
    requires o < |s.ops| && s.ops[o].pc.Waiting?
    ensures Enabled(s, GiveUp(o))
    ensures var t := Step(s, GiveUp(o));
      t.ops[o].pc.Delivering? && t.lock == s.lock && t.closed == s.closed && t.chans == s.chans
  {
  }

  // ---- every query can be answered --------------------------------------------------------------

  lemma {:induction false} RunConcat<K(!new)>(s: State<K>, a: seq<Label<K>>, b: seq<Label<K>>)
    requires Runs(s, a) && Runs(After(s, a), b)
    ensures Runs(s, a + b) && After(s, a + b) == After(After(s, a), b)
    decreases |a|
  {
    if a == [] {
      assert a + b == b;
    } else {
      RunConcat(Step(s, a[0]), a[1..], b);
      assert (a + b)[1..] == a[1..] + b;
    }
  }

  lemma OneStep<K(!new)>(s: State<K>, l: Label<K>)
    requires Enabled(s, l)
    ensures Runs(s, [l]) && After(s, [l]) == Step(s, l)
  {
    assert [l][1..] == [];
  }

  /** From any reachable state all operations can be brought to their end, though nobody gives up. */
  lemma {:induction false} CanEnd<K(!new)>(s: State<K>) returns (labels: seq<Label<K>>)
    requires Inv(s)
    ensures Runs(s, labels) && AllEnded(After(s, labels)) && |After(s, labels).ops| == |s.ops|
    ensures forall i :: 0 <= i < |labels| ==> !labels[i].Spawn? && !labels[i].GiveUp?
    ensures forall o :: 0 <= o < |s.ops| ==> SameOp(s.ops[o], After(s, labels).ops[o])
    decreases Rank(s.ops)
  {
    hide Inv, SameOp, Step, Enabled;
    if AllEnded(s) {
      labels := [];
      forall o | 0 <= o < |s.ops| ensures SameOp(s.ops[o], s.ops[o]) {
        SameOpSelf(s.ops[o]);
      }
    } else {
      var o :| 0 <= o < |s.ops| && !s.ops[o].pc.Ended?;
      var l := SomeoneCanMove(s, o);
      StepKeepsInv(s, l);
      StepLowersRank(s, l);
      StepKeepsOps(s, l);
      MoveKeepsCount(s, l);
      var rest := CanEnd(Step(s, l));
      OneStep(s, l);
      RunConcat(s, [l], rest);
      labels := [l] + rest;
      forall p | 0 <= p < |s.ops| ensures SameOp(s.ops[p], After(s, labels).ops[p]) {
        SameOpChain(s.ops[p], Step(s, l).ops[p], After(s, labels).ops[p]);
      }
    }
  }

  lemma SameOpSelf<K>(op: Op<K>)
    ensures SameOp(op, op)
  {
  }

  lemma MoveKeepsCount<K(!new)>(s: State<K>, l: Label<K>)
    requires Enabled(s, l) && !l.Spawn?
    ensures |Step(s, l).ops| == |s.ops|
  {
  }

  /** However many queries arrive, of whatever kind, there is a run that answers each of them exactly once. */
  lemma {:induction false} AllCanBeAnswered<K(!new)>(init: State<K>, queries: seq<(K, bool, bool)>)
    returns (labels: seq<Label<K>>)
    requires Init(init)
    ensures Runs(init, labels) && |After(init, labels).ops| == |queries|
    ensures forall o :: 0 <= o < |queries| ==>
      var op := After(init, labels).ops[o];
      op.pc.Ended? && op.calls == 1 && op.key == queries[o].0 && op.cached == queries[o].1
  {
    var spawns := Arrivals(init, queries);
    var s := After(init, spawns);
    RunKeepsInv(init, spawns);
    var rest := CanEnd(s);
    RunConcat(init, spawns, rest);
    labels := spawns + rest;
    RunKeepsInv(init, labels);
    NothingLeft(After(init, labels));
  }

  lemma {:induction false} Arrivals<K(!new)>(init: State<K>, queries: seq<(K, bool, bool)>)
    returns (labels: seq<Label<K>>)
    requires Init(init)
    ensures Runs(init, labels) && |After(init, labels).ops| == |queries|
    ensures forall o :: 0 <= o < |queries| ==>
      After(init, labels).ops[o] == Op(queries[o].0, queries[o].1, queries[o].2, Begin, 0)
    decreases |queries|
  {
    if queries == [] {
      labels := [];
    } else {
      var k := |queries| - 1;
      var before := Arrivals(init, queries[..k]);
      var l := Spawn(queries[k].0, queries[k].1, queries[k].2);
      OneStep(After(init, before), l);
      RunConcat(init, before, [l]);
      labels := before + [l];
    }
  }
}
