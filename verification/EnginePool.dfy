/**
 The engine session pool. Goroutines run Acquire, Release and Close; each event is one critical section, one channel
 operation or the end of one call on a session. Sessions are numbered as they are started.
 */
module EnginePool {
  import opened Options

  type Session = nat
  type Key = string

  datatype Bucket = Bucket(total: int, idle: seq<Session>)

  datatype Pc =
    | Ready
    | Seeking(key: Key)                       // about to receive without blocking
    | Checking(key: Key, s: Session)          // EnsureReady on a session taken from the channel
    | Rejecting(key: Key, s: Session)         // EnsureReady failed, about to look the session up
    | Reserving(key: Key)                     // about to compare total with capacity
    | Starting(key: Key)                      // slot reserved, starting the process
    | Undoing(key: Key)                       // start failed, about to give the slot back
    | Tracking(key: Key, s: Session)          // about to record the session
    | Waiting(key: Key)                       // at capacity, blocked on the channel
    | Holding(key: Key, s: Session)           // handed out to the caller
    | Putting(key: Key, s: Session)           // released without error, about to send
    | Untracking(key: Key, s: Session)        // the send found the channel full
    | Dropping(key: Key, s: Session, retry: Option<Key>)  // about to close the session and give the slot back
    | Closing(rest: seq<Key>)                 // draining the channels of these buckets
    | Shutting(key: Key, s: Session, rest: seq<Key>)  // drained one session, about to give its slot back

  datatype Pool = Pool(capacity: nat, buckets: map<Key, Bucket>, tracked: map<Session, Key>, threads: map<nat, Pc>,
                       next: Session, closed: bool)

  datatype Event =
    | Acquire(t: nat, key: Key) | TryTake(t: nat) | Block(t: nat) | Cancel(t: nat)
    | ReadyOk(t: nat) | ReadyFails(t: nat) | Reject(t: nat)
    | Reserve(t: nat) | StartOk(t: nat) | StartFails(t: nat) | Undo(t: nat) | Track(t: nat)
    | Release(t: nat, failed: bool) | Put(t: nat) | Untrack(t: nat) | Drop(t: nat)
    | Close(t: nat, order: seq<Key>) | Drain(t: nat) | Shut(t: nat)

  // ---------------------------------------------------------------- the bucket's critical sections

  /** Under the bucket's lock: one more slot, if there is one. */
  function TryReserve(b: Bucket, capacity: nat): Option<Bucket> {
    if b.total >= capacity then None else Some(b.(total := b.total + 1))
  }

  /** Under the bucket's lock: one slot less, never below zero. */
  function Decrement(b: Bucket): Bucket {
    if b.total > 0 then b.(total := b.total - 1) else b
  }

  /** A send that does not block. */
  function TrySend(b: Bucket, capacity: nat, s: Session): Option<Bucket> {
    if |b.idle| < capacity then Some(b.(idle := b.idle + [s])) else None
  }

  /** A receive that does not block. */
  function TryReceive(b: Bucket): Option<(Session, Bucket)> {
    if b.idle == [] then None else Some((b.idle[0], b.(idle := b.idle[1..])))
  }

  // ---------------------------------------------------------------- events

  function PcOf(p: Pool, t: nat): Pc {
    if t in p.threads then p.threads[t] else Ready
  }

  function Goto(p: Pool, t: nat, pc: Pc): Pool {
    p.(threads := p.threads[t := pc])
  }

  function BucketOf(p: Pool, key: Key): Bucket {
    if key in p.buckets then p.buckets[key] else Bucket(0, [])
  }

  function SetBucket(p: Pool, key: Key, b: Bucket): Pool {
    p.(buckets := p.buckets[key := b])
  }

  function Forget(p: Pool, s: Session): Pool {
    p.(tracked := p.tracked - {s})
  }

  /** Who receives from a channel: Acquire, or Close with the buckets it still drains. */
  datatype Receiver = ByAcquire | ByClose(rest: seq<Key>)

  function Taken(receiver: Receiver, key: Key, s: Session): Pc {
    match receiver
    case ByAcquire => Checking(key, s)
    case ByClose(rest) => Shutting(key, s, rest)
  }

  /** Receives from the channel and goes on with the session, or goes to `empty`. */
  function TakeStep(p: Pool, t: nat, key: Key, receiver: Receiver, empty: Pc): Pool {
    match TryReceive(BucketOf(p, key))
    case Some((s, b)) => Goto(SetBucket(p, key, b), t, Taken(receiver, key, s))
    case None => Goto(p, t, empty)
  }

  /** Gives the slot back and goes on. */
  function GiveBack(p: Pool, t: nat, key: Key, pc: Pc): Pool {
    Goto(SetBucket(p, key, Decrement(BucketOf(p, key))), t, pc)
  }

  function ReserveStep(p: Pool, t: nat, key: Key): Pool {
    match TryReserve(BucketOf(p, key), p.capacity)
    case Some(b) => Goto(SetBucket(p, key, b), t, Starting(key))
    case None => Goto(p, t, Waiting(key))
  }

  function PutStep(p: Pool, t: nat, key: Key, s: Session): Pool {
    match TrySend(BucketOf(p, key), p.capacity, s)
    case Some(b) => Goto(SetBucket(p, key, b), t, Ready)
    case None => Goto(p, t, Untracking(key, s))
  }

  /** Where a goroutine goes on after closing a session: back to seeking one, in Acquire, or home. */
  function Resumed(retry: Option<Key>): Pc {
    if retry.Some? then Seeking(retry.value) else Ready
  }

  /** Deletes the session from the tracking map before its slot is given back; an untracked session is just closed. */
  function ForgetStep(p: Pool, t: nat, s: Session, retry: Option<Key>, untracked: Pc): Pool {
    if s in p.tracked then Goto(Forget(p, s), t, Dropping(p.tracked[s], s, retry)) else Goto(p, t, untracked)
  }

  function ReleaseStep(p: Pool, t: nat, s: Session, failed: bool): Pool {
    if s in p.tracked && !failed then Goto(p, t, Putting(p.tracked[s], s)) else ForgetStep(p, t, s, None, Ready)
  }

  function CloseStep(p: Pool, t: nat, order: seq<Key>): Pool {
    if (set k | k in order) == p.buckets.Keys then Goto(p.(tracked := map[], closed := true), t, Closing(order)) else p
  }

  /** One event; an event whose goroutine is not at the matching point changes nothing. */
  function Step(p: Pool, e: Event): Pool {
    var pc := PcOf(p, e.t);
    match e
    case Acquire(t, key) => if pc == Ready then Goto(SetBucket(p, key, BucketOf(p, key)), t, Seeking(key)) else p
    case TryTake(t) => if pc.Seeking? then TakeStep(p, t, pc.key, ByAcquire, Reserving(pc.key)) else p
    case Block(t) => if pc.Waiting? then TakeStep(p, t, pc.key, ByAcquire, pc) else p
    case Cancel(t) => if pc.Waiting? then Goto(p, t, Ready) else p
    case ReadyOk(t) => if pc.Checking? then Goto(p, t, Tracking(pc.key, pc.s)) else p
    case ReadyFails(t) => if pc.Checking? then Goto(p, t, Rejecting(pc.key, pc.s)) else p
    case Reject(t) => if pc.Rejecting? then ForgetStep(p, t, pc.s, Some(pc.key), Seeking(pc.key)) else p
    case Reserve(t) => if pc.Reserving? then ReserveStep(p, t, pc.key) else p
    case StartOk(t) => if pc.Starting? then Goto(p.(next := p.next + 1), t, Tracking(pc.key, p.next)) else p
    case StartFails(t) => if pc.Starting? then Goto(p, t, Undoing(pc.key)) else p
    case Undo(t) => if pc.Undoing? then GiveBack(p, t, pc.key, Ready) else p
    case Track(t) =>
      if pc.Tracking? then Goto(p.(tracked := p.tracked[pc.s := pc.key]), t, Holding(pc.key, pc.s)) else p
    case Release(t, failed) => if pc.Holding? then ReleaseStep(p, t, pc.s, failed) else p
    case Put(t) => if pc.Putting? then PutStep(p, t, pc.key, pc.s) else p
    case Untrack(t) => if pc.Untracking? then ForgetStep(p, t, pc.s, None, Dropping(pc.key, pc.s, None)) else p
    case Drop(t) => if pc.Dropping? then GiveBack(p, t, pc.key, Resumed(pc.retry)) else p
    case Close(t, order) => if pc == Ready then CloseStep(p, t, order) else p
    case Drain(t) =>
      if !pc.Closing? then p
      else if pc.rest == [] then Goto(p, t, Ready)
      else TakeStep(p, t, pc.rest[0], ByClose(pc.rest), Closing(pc.rest[1..]))
    case Shut(t) => if pc.Shutting? then GiveBack(p, t, pc.key, Closing(pc.rest)) else p
  }

  function Run(capacity: nat, es: seq<Event>): Pool {
    if es == [] then Pool(capacity, map[], map[], map[], 0, false)
    else Step(Run(capacity, es[..|es| - 1]), es[|es| - 1])
  }

  // ---------------------------------------------------------------- who owns what

  /** The bucket whose slot a goroutine at this point accounts for. */
  function SlotKey(pc: Pc): Option<Key> {
    match pc
    case Checking(k, _) => Some(k)
    case Rejecting(k, _) => Some(k)
    case Starting(k) => Some(k)
    case Undoing(k) => Some(k)
    case Tracking(k, _) => Some(k)
    case Holding(k, _) => Some(k)
    case Putting(k, _) => Some(k)
    case Untracking(k, _) => Some(k)
    case Dropping(k, _, _) => Some(k)
    case Shutting(k, _, _) => Some(k)
    case _ => None
  }

  /** The session a goroutine at this point has. */
  function SessionOf(pc: Pc): Option<Session> {
    match pc
    case Checking(_, s) => Some(s)
    case Rejecting(_, s) => Some(s)
    case Tracking(_, s) => Some(s)
    case Holding(_, s) => Some(s)
    case Putting(_, s) => Some(s)
    case Untracking(_, s) => Some(s)
    case Dropping(_, s, _) => Some(s)
    case Shutting(_, s, _) => Some(s)
    case _ => None
  }

  /** The goroutines accounting for a slot of the bucket. */
  function Users(threads: map<nat, Pc>, key: Key): set<nat> {
    set t | t in threads && SlotKey(threads[t]) == Some(key)
  }

  /** Sessions idle, handed out, or being created, checked, returned or closed. */
  function InUse(p: Pool, key: Key): nat {
    |BucketOf(p, key).idle| + |Users(p.threads, key)|
  }

  // ---------------------------------------------------------------- the invariant

  /** Slots: `total` covers every session, exactly so until Close starts, and stays within capacity. */
  ghost predicate SlotsOk(p: Pool, key: Key) {
    var total := BucketOf(p, key).total;
    InUse(p, key) <= total <= p.capacity && (!p.closed ==> total == InUse(p, key))
  }

  /** Where a session can be. */
  datatype Place = Idle(key: Key, i: nat) | With(t: nat)

  predicate Has(p: Pool, a: Place, s: Session) {
    match a
    case Idle(k, i) => i < |BucketOf(p, k).idle| && BucketOf(p, k).idle[i] == s
    case With(t) => SessionOf(PcOf(p, t)) == Some(s)
  }

  /** No session is in two places: twice in a channel, in two channels, with two goroutines, or idle and with one. */
  ghost predicate NoSharing(p: Pool) {
    forall a, b, s: Session :: Has(p, a, s) && Has(p, b, s) ==> a == b
  }

  function PlaceKey(p: Pool, a: Place): Option<Key> {
    match a
    case Idle(k, _) => Some(k)
    case With(t) => SlotKey(PcOf(p, t))
  }

  predicate MustBeTracked(p: Pool, a: Place) {
    match a
    case Idle(_, _) => true
    case With(t) =>
      var pc := PcOf(p, t);
      pc.Checking? || pc.Rejecting? || pc.Holding? || pc.Putting?
  }

  /** A tracked session is tracked under the bucket that accounts for it; until Close every idle or handed-out one
      is. */
  ghost predicate PlaceOk(p: Pool, a: Place, s: Session) {
    && s < p.next
    && (s in p.tracked ==> PlaceKey(p, a) == Some(p.tracked[s]))
    && (!p.closed && MustBeTracked(p, a) ==> s in p.tracked)
  }

  ghost predicate PlacesOk(p: Pool) {
    && (forall a, s: Session :: Has(p, a, s) ==> PlaceOk(p, a, s))
    && (forall s: Session :: s in p.tracked ==> s < p.next)
    && (forall t :: t in p.threads ==> !p.threads[t].Untracking?)
  }

  ghost predicate Inv(p: Pool) {
    (forall k :: SlotsOk(p, k)) && NoSharing(p) && PlacesOk(p)
  }

  // ---------------------------------------------------------------- counting

  lemma CountWithout(users: set<nat>, t: nat)
    ensures |users| == |users - {t}| + if t in users then 1 else 0
  {
    if t in users {
      assert users == (users - {t}) + {t};
    } else {
      assert users - {t} == users;
    }
  }

  /** Moving one goroutine changes the count of each bucket's users by what that goroutine accounted for. */
  lemma UsersMove(threads: map<nat, Pc>, t: nat, pc: Pc, key: Key)
    ensures |Users(threads[t := pc], key)| ==
            |Users(threads, key)|
            - (if t in threads && SlotKey(threads[t]) == Some(key) then 1 else 0)
            + (if SlotKey(pc) == Some(key) then 1 else 0)
  {
    var before, after := Users(threads, key), Users(threads[t := pc], key);
    assert after - {t} == before - {t} by {
      forall u ensures u in after - {t} <==> u in before - {t} {
      }
    }
    CountWithout(before, t);
    CountWithout(after, t);
  }

  /** A goroutine with a slot is one of the bucket's users, so the bucket's total is not zero. */
  lemma SlotIsCounted(p: Pool, t: nat, key: Key)
    requires SlotsOk(p, key) && SlotKey(PcOf(p, t)) == Some(key)
    ensures BucketOf(p, key).total > |BucketOf(p, key).idle|
  {
    assert t in Users(p.threads, key);
    assert Users(p.threads, key) != {};
  }

  // ---------------------------------------------------------------- each kind of step

  /** A move that keeps the goroutine's slot and session. */
  lemma MoveKeepsInv(p: Pool, t: nat, pc: Pc)
    requires Inv(p) && SlotKey(pc) == SlotKey(PcOf(p, t)) && SessionOf(pc) == SessionOf(PcOf(p, t)) && !pc.Untracking?
    requires MustBeTracked(Goto(p, t, pc), With(t)) ==> MustBeTracked(p, With(t))
    ensures Inv(Goto(p, t, pc))
  {
    var q := Goto(p, t, pc);
    forall k ensures SlotsOk(q, k) {
      UsersMove(p.threads, t, pc, k);
      assert SlotsOk(p, k);
    }
    forall a, s: Session | Has(q, a, s) ensures Has(p, a, s) && PlaceOk(q, a, s) {
      assert Has(p, a, s);
      assert PlaceOk(p, a, s);
    }
  }

  /** Where the session that is now at `a` was before goroutine `t` received from the bucket's channel. */
  function TakenFrom(a: Place, t: nat, key: Key): Place {
    match a
    case Idle(k, i) => if k == key then Idle(k, i + 1) else a
    case With(u) => if u == t then Idle(key, 0) else a
  }

  lemma TakenIsThere(p: Pool, t: nat, key: Key, receiver: Receiver, empty: Pc, a: Place, s: Session)
    requires SessionOf(PcOf(p, t)).None? && BucketOf(p, key).idle != []
    requires Has(TakeStep(p, t, key, receiver, empty), a, s)
    ensures Has(p, TakenFrom(a, t, key), s)
  {
  }

  lemma TakeKeepsSlots(p: Pool, t: nat, key: Key, receiver: Receiver, empty: Pc, k: Key)
    requires SlotsOk(p, k) && SlotKey(PcOf(p, t)).None? && BucketOf(p, key).idle != []
    ensures SlotsOk(TakeStep(p, t, key, receiver, empty), k)
  {
    UsersMove(p.threads, t, Taken(receiver, key, BucketOf(p, key).idle[0]), k);
  }

  lemma TakeKeepsPlaces(p: Pool, t: nat, key: Key, receiver: Receiver, empty: Pc)
    requires Inv(p) && SlotKey(PcOf(p, t)).None? && SessionOf(PcOf(p, t)).None? && BucketOf(p, key).idle != []
    ensures NoSharing(TakeStep(p, t, key, receiver, empty)) && PlacesOk(TakeStep(p, t, key, receiver, empty))
  {
    var q := TakeStep(p, t, key, receiver, empty);
    forall a, s: Session | Has(q, a, s) ensures Has(p, TakenFrom(a, t, key), s) && PlaceOk(q, a, s) {
      TakenIsThere(p, t, key, receiver, empty, a, s);
      assert PlaceOk(p, TakenFrom(a, t, key), s);
    }
    forall a, b, s: Session | Has(q, a, s) && Has(q, b, s) ensures a == b {
      assert TakenFrom(a, t, key) == TakenFrom(b, t, key);
    }
  }

  lemma TakeKeepsInv(p: Pool, t: nat, key: Key, receiver: Receiver, empty: Pc)
    requires Inv(p) && SlotKey(PcOf(p, t)).None? && SessionOf(PcOf(p, t)).None?
    requires SlotKey(empty).None? && SessionOf(empty).None? && !empty.Untracking?
    ensures Inv(TakeStep(p, t, key, receiver, empty))
  {
    if BucketOf(p, key).idle == [] {
      MoveKeepsInv(p, t, empty);
    } else {
      forall k ensures SlotsOk(TakeStep(p, t, key, receiver, empty), k) {
        TakeKeepsSlots(p, t, key, receiver, empty, k);
      }
      TakeKeepsPlaces(p, t, key, receiver, empty);
    }
  }

  lemma GiveBackKeepsInv(p: Pool, t: nat, key: Key, pc: Pc)
    requires Inv(p) && SlotKey(PcOf(p, t)) == Some(key) && SlotKey(pc).None? && SessionOf(pc).None? && !pc.Untracking?
    ensures Inv(GiveBack(p, t, key, pc))
  {
    var q := GiveBack(p, t, key, pc);
    SlotIsCounted(p, t, key);
    forall k ensures SlotsOk(q, k) {
      UsersMove(p.threads, t, pc, k);
      assert SlotsOk(p, k);
    }
    forall a, s: Session | Has(q, a, s) ensures Has(p, a, s) && PlaceOk(q, a, s) {
      assert Has(p, a, s);
      assert PlaceOk(p, a, s);
    }
  }

  lemma ReserveKeepsInv(p: Pool, t: nat, key: Key)
    requires Inv(p) && PcOf(p, t) == Reserving(key)
    ensures Inv(ReserveStep(p, t, key))
  {
    var q := ReserveStep(p, t, key);
    if BucketOf(p, key).total >= p.capacity {
      MoveKeepsInv(p, t, Waiting(key));
    } else {
      forall k ensures SlotsOk(q, k) {
        UsersMove(p.threads, t, Starting(key), k);
        assert SlotsOk(p, k);
      }
      forall a, s: Session | Has(q, a, s) ensures Has(p, a, s) && PlaceOk(q, a, s) {
        assert Has(p, a, s);
        assert PlaceOk(p, a, s);
      }
    }
  }

  /** A send never finds the channel full, because the sender's own slot is not idle. */
  lemma SendHasRoom(p: Pool, t: nat, key: Key, s: Session)
    requires Inv(p) && PcOf(p, t) == Putting(key, s)
    ensures TrySend(BucketOf(p, key), p.capacity, s).Some?
  {
    assert SlotsOk(p, key);
    SlotIsCounted(p, t, key);
  }

  /** Where the session that is now at `a` was before goroutine `t` sent it. */
  function SentFrom(p: Pool, a: Place, t: nat, key: Key): Place {
    if a == Idle(key, |BucketOf(p, key).idle|) then With(t) else a
  }

  lemma PutKeepsInv(p: Pool, t: nat, key: Key, s: Session)
    requires Inv(p) && PcOf(p, t) == Putting(key, s)
    ensures Inv(PutStep(p, t, key, s))
  {
    var q := PutStep(p, t, key, s);
    SendHasRoom(p, t, key, s);
    forall k ensures SlotsOk(q, k) {
      UsersMove(p.threads, t, Ready, k);
      assert SlotsOk(p, k);
    }
    forall a, x: Session | Has(q, a, x) ensures Has(p, SentFrom(p, a, t, key), x) && PlaceOk(q, a, x) {
      assert Has(p, SentFrom(p, a, t, key), x);
      assert PlaceOk(p, SentFrom(p, a, t, key), x);
    }
    forall a, b, x: Session | Has(q, a, x) && Has(q, b, x) ensures a == b {
      assert SentFrom(p, a, t, key) == SentFrom(p, b, t, key);
    }
  }

  /** A started process has a number no session has had. */
  lemma StartKeepsInv(p: Pool, t: nat, key: Key)
    requires Inv(p) && PcOf(p, t) == Starting(key)
    ensures Inv(Goto(p.(next := p.next + 1), t, Tracking(key, p.next)))
  {
    var q := Goto(p.(next := p.next + 1), t, Tracking(key, p.next));
    forall k ensures SlotsOk(q, k) {
      UsersMove(p.threads, t, Tracking(key, p.next), k);
      assert SlotsOk(p, k);
    }
    forall a, s: Session | Has(q, a, s) ensures if a == With(t) then s == p.next else Has(p, a, s) && s < p.next {
      if a != With(t) {
        assert Has(p, a, s);
      }
    }
    forall a, s: Session | Has(q, a, s) ensures PlaceOk(q, a, s) {
      if a != With(t) {
        assert Has(p, a, s);
      }
    }
  }

  lemma TrackKeepsInv(p: Pool, t: nat, key: Key, s: Session)
    requires Inv(p) && PcOf(p, t) == Tracking(key, s)
    ensures Inv(Goto(p.(tracked := p.tracked[s := key]), t, Holding(key, s)))
  {
    var q := Goto(p.(tracked := p.tracked[s := key]), t, Holding(key, s));
    forall k ensures SlotsOk(q, k) {
      UsersMove(p.threads, t, Holding(key, s), k);
      assert SlotsOk(p, k);
    }
    assert Has(p, With(t), s);
    forall a, x: Session | Has(q, a, x) ensures Has(p, a, x) && PlaceOk(q, a, x) {
      assert Has(p, a, x);
      assert PlaceOk(p, a, x);
    }
  }

  /** Forgetting a tracked session keeps its slot accounted for until it is closed. */
  lemma ForgetTracked(p: Pool, t: nat, s: Session, retry: Option<Key>)
    requires Inv(p) && SessionOf(PcOf(p, t)) == Some(s) && s in p.tracked && MustBeTracked(p, With(t))
    ensures Inv(Goto(Forget(p, s), t, Dropping(p.tracked[s], s, retry)))
  {
    var q := Goto(Forget(p, s), t, Dropping(p.tracked[s], s, retry));
    assert Has(p, With(t), s);
    assert PlaceOk(p, With(t), s);
    forall k ensures SlotsOk(q, k) {
      UsersMove(p.threads, t, Dropping(p.tracked[s], s, retry), k);
      assert SlotsOk(p, k);
    }
    forall a, x: Session | Has(q, a, x) ensures Has(p, a, x) && PlaceOk(q, a, x) {
      assert Has(p, a, x);
      assert PlaceOk(p, a, x);
    }
  }

  /** An untracked session, possible only after Close, is closed and its slot is never given back. */
  lemma LeakUntracked(p: Pool, t: nat, s: Session, pc: Pc)
    requires Inv(p) && SessionOf(PcOf(p, t)) == Some(s) && s !in p.tracked && MustBeTracked(p, With(t))
    requires SlotKey(pc).None? && SessionOf(pc).None? && !pc.Untracking?
    ensures p.closed && Inv(Goto(p, t, pc))
  {
    var q := Goto(p, t, pc);
    assert Has(p, With(t), s);
    assert PlaceOk(p, With(t), s);
    forall k ensures SlotsOk(q, k) {
      UsersMove(p.threads, t, pc, k);
      assert SlotsOk(p, k);
    }
    forall a, x: Session | Has(q, a, x) ensures Has(p, a, x) && PlaceOk(q, a, x) {
      assert Has(p, a, x);
      assert PlaceOk(p, a, x);
    }
  }

  lemma ForgetKeepsInv(p: Pool, t: nat, s: Session, retry: Option<Key>, untracked: Pc)
    requires Inv(p) && SessionOf(PcOf(p, t)) == Some(s) && MustBeTracked(p, With(t))
    requires SlotKey(untracked).None? && SessionOf(untracked).None? && !untracked.Untracking?
    ensures Inv(ForgetStep(p, t, s, retry, untracked))
  {
    if s in p.tracked {
      ForgetTracked(p, t, s, retry);
    } else {
      LeakUntracked(p, t, s, untracked);
    }
  }

  lemma ReleaseKeepsInv(p: Pool, t: nat, key: Key, s: Session, failed: bool)
    requires Inv(p) && PcOf(p, t) == Holding(key, s)
    ensures Inv(ReleaseStep(p, t, s, failed))
  {
    assert Has(p, With(t), s);
    assert PlaceOk(p, With(t), s);
    if s in p.tracked && !failed {
      MoveKeepsInv(p, t, Putting(key, s));
    } else {
      ForgetKeepsInv(p, t, s, None, Ready);
    }
  }

  lemma CloseKeepsInv(p: Pool, t: nat, order: seq<Key>)
    requires Inv(p) && PcOf(p, t) == Ready
    ensures Inv(CloseStep(p, t, order))
  {
    var q := CloseStep(p, t, order);
    if q != p {
      forall k ensures SlotsOk(q, k) {
        UsersMove(p.threads, t, Closing(order), k);
        assert SlotsOk(p, k);
      }
      forall a, s: Session | Has(q, a, s) ensures Has(p, a, s) && PlaceOk(q, a, s) {
        assert Has(p, a, s);
      }
    }
  }

  lemma AcquireKeepsInv(p: Pool, t: nat, key: Key)
    requires Inv(p) && PcOf(p, t) == Ready
    ensures Inv(Goto(SetBucket(p, key, BucketOf(p, key)), t, Seeking(key)))
  {
    var q := SetBucket(p, key, BucketOf(p, key));
    assert forall k :: BucketOf(q, k) == BucketOf(p, k);
    forall k ensures SlotsOk(q, k) {
      assert SlotsOk(p, k);
    }
    forall a, s: Session | Has(q, a, s) ensures Has(p, a, s) && PlaceOk(q, a, s) {
      assert Has(p, a, s);
      assert PlaceOk(p, a, s);
    }
    MoveKeepsInv(q, t, Seeking(key));
  }

  /** The events on the way to a session: taking an idle one, or failing to. */
  lemma SeekKeepsInv(p: Pool, e: Event)
    requires Inv(p) && (e.TryTake? || e.Block? || e.Cancel? || e.ReadyOk? || e.ReadyFails? || e.Reject?)
    ensures Inv(Step(p, e))
  {
    var pc := PcOf(p, e.t);
    if Step(p, e) != p {
      match e
      case TryTake(t) => TakeKeepsInv(p, t, pc.key, ByAcquire, Reserving(pc.key));
      case Block(t) => TakeKeepsInv(p, t, pc.key, ByAcquire, pc);
      case Cancel(t) => MoveKeepsInv(p, t, Ready);
      case ReadyOk(t) => MoveKeepsInv(p, t, Tracking(pc.key, pc.s));
      case ReadyFails(t) => MoveKeepsInv(p, t, Rejecting(pc.key, pc.s));
      case Reject(t) => ForgetKeepsInv(p, t, pc.s, Some(pc.key), Seeking(pc.key));
    }
  }

  /** The events of starting a session. */
  lemma CreateKeepsInv(p: Pool, e: Event)
    requires Inv(p) && (e.Reserve? || e.StartOk? || e.StartFails? || e.Undo? || e.Track?)
    ensures Inv(Step(p, e))
  {
    var pc := PcOf(p, e.t);
    if Step(p, e) != p {
      match e
      case Reserve(t) => ReserveKeepsInv(p, t, pc.key);
      case StartOk(t) => StartKeepsInv(p, t, pc.key);
      case StartFails(t) => MoveKeepsInv(p, t, Undoing(pc.key));
      case Undo(t) => GiveBackKeepsInv(p, t, pc.key, Ready);
      case Track(t) => TrackKeepsInv(p, t, pc.key, pc.s);
    }
  }

  /** The events of Release. */
  lemma ReturnKeepsInv(p: Pool, e: Event)
    requires Inv(p) && (e.Release? || e.Put? || e.Untrack? || e.Drop?)
    ensures Inv(Step(p, e))
  {
    var pc := PcOf(p, e.t);
    if Step(p, e) != p {
      match e
      case Release(t, failed) => ReleaseKeepsInv(p, t, pc.key, pc.s, failed);
      case Put(t) => PutKeepsInv(p, t, pc.key, pc.s);
      case Untrack(t) => assert false;
      case Drop(t) => GiveBackKeepsInv(p, t, pc.key, Resumed(pc.retry));
    }
  }

  /** The events of Close. */
  lemma DrainKeepsInv(p: Pool, e: Event)
    requires Inv(p) && (e.Close? || e.Drain? || e.Shut?)
    ensures Inv(Step(p, e))
  {
    var pc := PcOf(p, e.t);
    if Step(p, e) != p {
      match e
      case Close(t, order) => CloseKeepsInv(p, t, order);
      case Drain(t) =>
        if pc.rest == [] {
          MoveKeepsInv(p, t, Ready);
        } else {
          TakeKeepsInv(p, t, pc.rest[0], ByClose(pc.rest), Closing(pc.rest[1..]));
        }
      case Shut(t) => GiveBackKeepsInv(p, t, pc.key, Closing(pc.rest));
    }
  }

  lemma StepKeepsInv(p: Pool, e: Event)
    requires Inv(p)
    ensures Inv(Step(p, e))
  {
    if e.Acquire? {
      if PcOf(p, e.t) == Ready {
        AcquireKeepsInv(p, e.t, e.key);
      }
    } else if e.Release? || e.Put? || e.Untrack? || e.Drop? {
      ReturnKeepsInv(p, e);
    } else if e.Close? || e.Drain? || e.Shut? {
      DrainKeepsInv(p, e);
    } else if e.Reserve? || e.StartOk? || e.StartFails? || e.Undo? || e.Track? {
      CreateKeepsInv(p, e);
    } else {
      SeekKeepsInv(p, e);
    }
  }

  lemma StepKeepsCapacity(p: Pool, e: Event)
    ensures Step(p, e).capacity == p.capacity
  {
  }

  lemma {:induction false} RunKeepsInv(capacity: nat, es: seq<Event>)
    ensures Inv(Run(capacity, es)) && Run(capacity, es).capacity == capacity
  {
    if es == [] {
    } else {
      RunKeepsInv(capacity, es[..|es| - 1]);
      StepKeepsInv(Run(capacity, es[..|es| - 1]), es[|es| - 1]);
      StepKeepsCapacity(Run(capacity, es[..|es| - 1]), es[|es| - 1]);
    }
  }

  // ---------------------------------------------------------------- theorems over every interleaving

  /** A bucket never accounts for fewer slots than are in use, nor more than its capacity, and before Close exactly
      those in use. */
  lemma SlotsAreAccounted(capacity: nat, es: seq<Event>, key: Key)
    ensures var p := Run(capacity, es);
            InUse(p, key) <= BucketOf(p, key).total <= capacity
                && (!p.closed ==> BucketOf(p, key).total == InUse(p, key))
  {
    RunKeepsInv(capacity, es);
    assert SlotsOk(Run(capacity, es), key);
  }

  /** A session handed out is handed out once and is in no channel. */
  lemma HandedOutOnce(capacity: nat, es: seq<Event>, t: nat, u: nat, key: Key, other: Key, s: Session)
    requires PcOf(Run(capacity, es), t) == Holding(key, s)
    ensures PcOf(Run(capacity, es), u) == Holding(other, s) ==> u == t
    ensures s !in BucketOf(Run(capacity, es), other).idle
  {
    var p := Run(capacity, es);
    RunKeepsInv(capacity, es);
    assert Has(p, With(t), s);
    assert PcOf(p, u) == Holding(other, s) ==> Has(p, With(u), s);
    forall i | 0 <= i < |BucketOf(p, other).idle| ensures BucketOf(p, other).idle[i] != s {
      assert BucketOf(p, other).idle[i] == s ==> Has(p, Idle(other, i), s);
    }
  }

  /** A released session always fits in the channel, and giving a slot back never finds the count at zero. */
  lemma NoOverflowNoUnderflow(
      capacity: nat, es: seq<Event>, t: nat, key: Key, s: Session, retry: Option<Key>, rest: seq<Key>)
    ensures var p := Run(capacity, es);
            && (PcOf(p, t) == Putting(key, s) ==> |BucketOf(p, key).idle| < capacity)
            && (PcOf(p, t) in {Undoing(key), Dropping(key, s, retry), Shutting(key, s, rest)} ==>
                  BucketOf(p, key).total > 0)
            && !PcOf(p, t).Untracking?
  {
    var p := Run(capacity, es);
    RunKeepsInv(capacity, es);
    assert SlotsOk(p, key);
    if SlotKey(PcOf(p, t)) == Some(key) {
      SlotIsCounted(p, t, key);
    }
  }

  // ---------------------------------------------------------------- sessions that Close forgot

  /** A session handed out is tracked under its bucket, unless Close has emptied the tracking map. */
  lemma HeldIsTracked(capacity: nat, es: seq<Event>, t: nat, key: Key, s: Session)
    requires PcOf(Run(capacity, es), t) == Holding(key, s)
    ensures var p := Run(capacity, es);
            && (!p.closed ==> s in p.tracked)
            && (s in p.tracked ==> p.tracked[s] == key)
  {
    RunKeepsInv(capacity, es);
    assert Has(Run(capacity, es), With(t), s);
  }

  /** The event runs the critical section of Close. */
  predicate ClosesNow(p: Pool, e: Event) {
    e.Close? && PcOf(p, e.t) == Ready && (set k | k in e.order) == p.buckets.Keys
  }

  /** The goroutine recorded a session and no Close has emptied the map since. */
  predicate TrackedSinceClose(capacity: nat, es: seq<Event>, t: nat) {
    es != [] &&
    var before, e := es[..|es| - 1], es[|es| - 1];
    var p := Run(capacity, before);
    (e == Track(t) && PcOf(p, t).Tracking?) || (!ClosesNow(p, e) && TrackedSinceClose(capacity, before, t))
  }

  lemma LeavesRecords(p: Pool, e: Event)
    requires !e.Track? && !e.Reject? && !e.Release? && !e.Untrack? && !e.Close?
    ensures Step(p, e).tracked == p.tracked
  {
  }

  /** An event touches the record of its own goroutine's session only, unless it is Close. */
  lemma TouchesOwnRecord(p: Pool, e: Event, s: Session)
    requires SessionOf(PcOf(p, e.t)) != Some(s)
    ensures s in Step(p, e).tracked <==> !ClosesNow(p, e) && s in p.tracked
  {
    if e.Track? || e.Reject? || e.Release? || e.Untrack? {
    } else if e.Close? {
    } else {
      LeavesRecords(p, e);
    }
  }

  lemma OneHolder(p: Pool, t: nat, u: nat, s: Session)
    requires NoSharing(p) && SessionOf(PcOf(p, t)) == Some(s) && u != t
    ensures SessionOf(PcOf(p, u)) != Some(s)
  {
    assert Has(p, With(t), s);
    assert Has(p, With(u), s) <==> SessionOf(PcOf(p, u)) == Some(s);
  }

  lemma OthersKeepRecord(p: Pool, e: Event, t: nat, key: Key, s: Session)
    requires NoSharing(p) && PcOf(p, t) == Holding(key, s) && e.t != t
    ensures s in Step(p, e).tracked <==> !ClosesNow(p, e) && s in p.tracked
  {
    OneHolder(p, t, e.t, s);
    TouchesOwnRecord(p, e, s);
  }

  lemma OthersStayPutAtEnd(p: Pool, e: Event, t: nat)
    requires e.t != t && (e.Release? || e.Put? || e.Untrack? || e.Drop? || e.Close? || e.Drain? || e.Shut?)
    ensures PcOf(Step(p, e), t) == PcOf(p, t)
  {
  }

  lemma OthersStayPutLater(p: Pool, e: Event, t: nat)
    requires e.t != t
    requires !e.Acquire? && !e.TryTake? && !e.Block? && !e.Cancel? && !e.ReadyOk? && !e.ReadyFails? && !e.Reject?
    ensures PcOf(Step(p, e), t) == PcOf(p, t)
  {
    if e.Reserve? || e.StartOk? || e.StartFails? || e.Undo? || e.Track? {
    } else {
      OthersStayPutAtEnd(p, e, t);
    }
  }

  lemma OthersStayPut(p: Pool, e: Event, t: nat)
    requires e.t != t
    ensures PcOf(Step(p, e), t) == PcOf(p, t)
  {
    if e.Acquire? || e.TryTake? || e.Block? || e.Cancel? || e.ReadyOk? || e.ReadyFails? || e.Reject? {
    } else {
      OthersStayPutLater(p, e, t);
    }
  }

  /** A goroutine comes to hold a session by recording it, and no event of its own but Release ends that. */
  lemma OwnHeldStep(p: Pool, e: Event, key: Key, s: Session)
    requires PcOf(Step(p, e), e.t) == Holding(key, s)
    ensures if e.Track? && PcOf(p, e.t).Tracking? then s in Step(p, e).tracked
            else Step(p, e) == p && PcOf(p, e.t) == Holding(key, s)
  {
  }

  /** While a goroutine holds a session, only Close removes its record. */
  lemma HeldStep(p: Pool, e: Event, t: nat, key: Key, s: Session)
    requires NoSharing(p) && PcOf(Step(p, e), t) == Holding(key, s)
    ensures if e == Track(t) && PcOf(p, t).Tracking? then s in Step(p, e).tracked
            else PcOf(p, t) == Holding(key, s)
                 && (s in Step(p, e).tracked <==> !ClosesNow(p, e) && s in p.tracked)
  {
    if e.t == t {
      OwnHeldStep(p, e, key, s);
    } else {
      OthersStayPut(p, e, t);
      OthersKeepRecord(p, e, t, key, s);
    }
  }

  /** A caller's session is found in the map exactly when no Close came after it was recorded. */
  lemma {:induction false} HeldTrackedIff(capacity: nat, es: seq<Event>, t: nat, key: Key, s: Session)
    requires PcOf(Run(capacity, es), t) == Holding(key, s)
    ensures s in Run(capacity, es).tracked <==> TrackedSinceClose(capacity, es, t)
  {
    var before, e := es[..|es| - 1], es[|es| - 1];
    var p := Run(capacity, before);
    RunKeepsInv(capacity, before);
    HeldStep(p, e, t, key, s);
    if !(e == Track(t) && PcOf(p, t).Tracking?) {
      HeldTrackedIff(capacity, before, t, key, s);
    }
  }

  lemma RunSnoc(capacity: nat, es: seq<Event>, e: Event)
    ensures Run(capacity, es + [e]) == Step(Run(capacity, es), e)
  {
    assert (es + [e])[..|es|] == es;
  }

  const SOUGHT := [] + [Acquire(0, "k")]
  const SLOT_TAKEN := SOUGHT + [TryTake(0)] + [Reserve(0)]
  const HELD := SLOT_TAKEN + [StartOk(0)] + [Track(0)]

  lemma SlotTaken(capacity: nat)
    requires capacity > 0
    ensures Run(capacity, SLOT_TAKEN) ==
            Pool(capacity, map["k" := Bucket(1, [])], map[], map[0 := Starting("k")], 0, false)
  {
    var buckets := map["k" := Bucket(0, [])];
    RunSnoc(capacity, [], Acquire(0, "k"));
    assert Run(capacity, SOUGHT) == Pool(capacity, buckets, map[], map[0 := Seeking("k")], 0, false);
    RunSnoc(capacity, SOUGHT, TryTake(0));
    RunSnoc(capacity, SOUGHT + [TryTake(0)], Reserve(0));
  }

  lemma FirstHeld(capacity: nat)
    requires capacity > 0
    ensures Run(capacity, HELD) ==
            Pool(capacity, map["k" := Bucket(1, [])], map[0 := "k"], map[0 := Holding("k", 0)], 1, false)
  {
    SlotTaken(capacity);
    RunSnoc(capacity, SLOT_TAKEN, StartOk(0));
    RunSnoc(capacity, SLOT_TAKEN + [StartOk(0)], Track(0));
  }

  /** A session held when another goroutine closes the pool is untracked: its release finds nothing in the map. */
  lemma HeldUntracked(capacity: nat)
    requires capacity > 0
    ensures var p := Run(capacity, HELD + [Close(1, ["k"])]); PcOf(p, 0) == Holding("k", 0) && 0 !in p.tracked
  {
    FirstHeld(capacity);
    RunSnoc(capacity, HELD, Close(1, ["k"]));
    assert (set k | k in ["k"]) == {"k"};
  }

  // ---------------------------------------------------------------- slots that are never given back

  /** The slots counted beyond those in use. */
  function Slack(p: Pool, key: Key): int {
    BucketOf(p, key).total - InUse(p, key)
  }

  /** The event closes a session of the bucket that it does not find in the tracking map. */
  predicate LeaksNow(p: Pool, e: Event, key: Key) {
    var pc := PcOf(p, e.t);
    ((e.Release? && pc.Holding?) || (e.Reject? && pc.Rejecting?)) && pc.key == key && pc.s !in p.tracked
  }

  /** How many sessions of the bucket a run has closed untracked. */
  function Leaked(capacity: nat, es: seq<Event>, key: Key): nat {
    if es == [] then 0
    else
      var before, e := es[..|es| - 1], es[|es| - 1];
      Leaked(capacity, before, key) + if LeaksNow(Run(capacity, before), e, key) then 1 else 0
  }

  function SlotOf(pc: Pc, key: Key): nat {
    if SlotKey(pc) == Some(key) then 1 else 0
  }

  lemma SlackMoves(p: Pool, q: Pool, t: nat, pc: Pc, key: Key)
    requires q.threads == p.threads[t := pc]
    ensures Slack(q, key) - Slack(p, key) ==
            (BucketOf(q, key).total - BucketOf(p, key).total) - (|BucketOf(q, key).idle| - |BucketOf(p, key).idle|)
            + SlotOf(PcOf(p, t), key) - SlotOf(pc, key)
  {
    UsersMove(p.threads, t, pc, key);
  }

  lemma TakeSlack(p: Pool, t: nat, k: Key, receiver: Receiver, empty: Pc, key: Key)
    requires SlotKey(PcOf(p, t)).None? && SlotKey(empty).None?
    ensures Slack(TakeStep(p, t, k, receiver, empty), key) == Slack(p, key)
  {
    var q := TakeStep(p, t, k, receiver, empty);
    if BucketOf(p, k).idle == [] {
      SlackMoves(p, q, t, empty, key);
    } else {
      SlackMoves(p, q, t, Taken(receiver, k, BucketOf(p, k).idle[0]), key);
    }
  }

  lemma GiveBackSlack(p: Pool, t: nat, k: Key, pc: Pc, key: Key)
    requires SlotsOk(p, k) && SlotKey(PcOf(p, t)) == Some(k) && SlotKey(pc).None?
    ensures Slack(GiveBack(p, t, k, pc), key) == Slack(p, key)
  {
    SlotIsCounted(p, t, k);
    SlackMoves(p, GiveBack(p, t, k, pc), t, pc, key);
  }

  lemma ReserveSlack(p: Pool, t: nat, k: Key, key: Key)
    requires PcOf(p, t) == Reserving(k)
    ensures Slack(ReserveStep(p, t, k), key) == Slack(p, key)
  {
    var q := ReserveStep(p, t, k);
    SlackMoves(p, q, t, PcOf(q, t), key);
  }

  lemma PutSlack(p: Pool, t: nat, k: Key, s: Session, key: Key)
    requires Inv(p) && PcOf(p, t) == Putting(k, s)
    ensures Slack(PutStep(p, t, k, s), key) == Slack(p, key)
  {
    SendHasRoom(p, t, k, s);
    SlackMoves(p, PutStep(p, t, k, s), t, Ready, key);
  }

  /** Closing a session keeps its slot counted, for the goroutine that gives it back or, untracked, for good. */
  lemma ForgetSlack(p: Pool, t: nat, k: Key, s: Session, retry: Option<Key>, untracked: Pc, key: Key)
    requires Inv(p) && PcOf(p, t) in {Holding(k, s), Rejecting(k, s)} && SlotKey(untracked).None?
    ensures Slack(ForgetStep(p, t, s, retry, untracked), key) ==
            Slack(p, key) + if s !in p.tracked && k == key then 1 else 0
  {
    assert Has(p, With(t), s);
    assert PlaceOk(p, With(t), s);
    var q := ForgetStep(p, t, s, retry, untracked);
    SlackMoves(p, q, t, PcOf(q, t), key);
  }

  lemma ReleaseSlack(p: Pool, t: nat, k: Key, s: Session, failed: bool, key: Key)
    requires Inv(p) && PcOf(p, t) == Holding(k, s)
    ensures Slack(ReleaseStep(p, t, s, failed), key) == Slack(p, key) + if s !in p.tracked && k == key then 1 else 0
  {
    if s in p.tracked && !failed {
      assert Has(p, With(t), s);
      assert PlaceOk(p, With(t), s);
      SlackMoves(p, ReleaseStep(p, t, s, failed), t, Putting(k, s), key);
    } else {
      ForgetSlack(p, t, k, s, None, Ready, key);
    }
  }

  lemma SeekSlack(p: Pool, e: Event, key: Key)
    requires Inv(p) && (e.TryTake? || e.Block? || e.Cancel? || e.ReadyOk? || e.ReadyFails? || e.Reject?)
    ensures Slack(Step(p, e), key) == Slack(p, key) + if LeaksNow(p, e, key) then 1 else 0
  {
    var pc := PcOf(p, e.t);
    if Step(p, e) != p {
      match e
      case TryTake(t) => TakeSlack(p, t, pc.key, ByAcquire, Reserving(pc.key), key);
      case Block(t) => TakeSlack(p, t, pc.key, ByAcquire, pc, key);
      case Reject(t) => ForgetSlack(p, t, pc.key, pc.s, Some(pc.key), Seeking(pc.key), key);
      case Cancel(t) => SlackMoves(p, Goto(p, t, Ready), t, Ready, key);
      case ReadyOk(t) => SlackMoves(p, Step(p, e), t, Tracking(pc.key, pc.s), key);
      case ReadyFails(t) => SlackMoves(p, Step(p, e), t, Rejecting(pc.key, pc.s), key);
    }
  }

  lemma CreateSlack(p: Pool, e: Event, key: Key)
    requires Inv(p) && (e.Reserve? || e.StartOk? || e.StartFails? || e.Undo? || e.Track?)
    ensures Slack(Step(p, e), key) == Slack(p, key)
  {
    var pc := PcOf(p, e.t);
    if Step(p, e) != p {
      match e
      case Reserve(t) => ReserveSlack(p, t, pc.key, key);
      case Undo(t) => GiveBackSlack(p, t, pc.key, Ready, key);
      case StartOk(t) => SlackMoves(p, Step(p, e), t, Tracking(pc.key, p.next), key);
      case StartFails(t) => SlackMoves(p, Step(p, e), t, Undoing(pc.key), key);
      case Track(t) => SlackMoves(p, Step(p, e), t, Holding(pc.key, pc.s), key);
    }
  }

  lemma ReturnSlack(p: Pool, e: Event, key: Key)
    requires Inv(p) && (e.Release? || e.Put? || e.Untrack? || e.Drop?)
    ensures Slack(Step(p, e), key) == Slack(p, key) + if LeaksNow(p, e, key) then 1 else 0
  {
    var pc := PcOf(p, e.t);
    if Step(p, e) != p {
      match e
      case Release(t, failed) => ReleaseSlack(p, t, pc.key, pc.s, failed, key);
      case Put(t) => PutSlack(p, t, pc.key, pc.s, key);
      case Untrack(t) => assert false;
      case Drop(t) => GiveBackSlack(p, t, pc.key, Resumed(pc.retry), key);
    }
  }

  lemma AcquireSlack(p: Pool, t: nat, k: Key, key: Key)
    requires PcOf(p, t) == Ready
    ensures Slack(Goto(SetBucket(p, k, BucketOf(p, k)), t, Seeking(k)), key) == Slack(p, key)
  {
    SlackMoves(p, Goto(SetBucket(p, k, BucketOf(p, k)), t, Seeking(k)), t, Seeking(k), key);
  }

  lemma CloseSlack(p: Pool, t: nat, order: seq<Key>, key: Key)
    requires PcOf(p, t) == Ready
    ensures Slack(CloseStep(p, t, order), key) == Slack(p, key)
  {
    var q := CloseStep(p, t, order);
    if q != p {
      SlackMoves(p, q, t, Closing(order), key);
    }
  }

  lemma DrainSlack(p: Pool, e: Event, key: Key)
    requires Inv(p) && (e.Acquire? || e.Close? || e.Drain? || e.Shut?)
    ensures Slack(Step(p, e), key) == Slack(p, key)
  {
    var pc := PcOf(p, e.t);
    if Step(p, e) != p {
      match e
      case Acquire(t, k) => AcquireSlack(p, t, k, key);
      case Close(t, order) => CloseSlack(p, t, order, key);
      case Drain(t) =>
        if pc.rest == [] {
          SlackMoves(p, Goto(p, t, Ready), t, Ready, key);
        } else {
          TakeSlack(p, t, pc.rest[0], ByClose(pc.rest), Closing(pc.rest[1..]), key);
        }
      case Shut(t) => GiveBackSlack(p, t, pc.key, Closing(pc.rest), key);
    }
  }

  lemma StepSlack(p: Pool, e: Event, key: Key)
    requires Inv(p)
    ensures Slack(Step(p, e), key) == Slack(p, key) + if LeaksNow(p, e, key) then 1 else 0
  {
    if e.Acquire? || e.Close? || e.Drain? || e.Shut? {
      DrainSlack(p, e, key);
    } else if e.Release? || e.Put? || e.Untrack? || e.Drop? {
      ReturnSlack(p, e, key);
    } else if e.Reserve? || e.StartOk? || e.StartFails? || e.Undo? || e.Track? {
      CreateSlack(p, e, key);
    } else {
      SeekSlack(p, e, key);
    }
  }

  /** In every interleaving a bucket counts the slots in use and one for each of its sessions closed untracked. */
  lemma {:induction false} SlotsAreExact(capacity: nat, es: seq<Event>, key: Key)
    ensures BucketOf(Run(capacity, es), key).total == InUse(Run(capacity, es), key) + Leaked(capacity, es, key)
  {
    if es == [] {
    } else {
      var before := es[..|es| - 1];
      SlotsAreExact(capacity, before, key);
      RunKeepsInv(capacity, before);
      StepSlack(Run(capacity, before), es[|es| - 1], key);
    }
  }

  /** Releasing the session that Close forgot leaves its slot counted. */
  lemma ReleaseLeaks(capacity: nat)
    requires capacity > 0
    ensures Leaked(capacity, HELD + [Close(1, ["k"])] + [Release(0, false)], "k") > 0
  {
    var es := HELD + [Close(1, ["k"])];
    HeldUntracked(capacity);
    assert (es + [Release(0, false)])[..|es|] == es;
  }

  // ---------------------------------------------------------------- the bucket as an object

  /** The channel holds no more sessions than are counted, and no more are counted than fit. */
  predicate BucketOk(b: Bucket, capacity: nat) {
    |b.idle| <= b.total <= capacity
  }

  /** Every bucket of the pool is like that, in every interleaving. */
  lemma BucketsAreOk(capacity: nat, es: seq<Event>, key: Key)
    ensures BucketOk(BucketOf(Run(capacity, es), key), capacity)
  {
    SlotsAreAccounted(capacity, es, key);
  }

  class SessionBucket {
    const capacity: nat
    var total: int
    var idle: seq<Session>

    function Abs(): Bucket
      reads this
    {
      Bucket(total, idle)
    }

    predicate Valid()
      reads this
    {
      BucketOk(Abs(), capacity)
    }

    /** Some counted session is not in the channel: the slot of whoever is returning or closing one. */
    predicate SlotOut()
      reads this
    {
      |idle| < total
    }

    constructor (capacity: int)
      ensures Valid() && this.capacity == (if capacity <= 0 then 1 else capacity) && Abs() == Bucket(0, [])
    {
      this.capacity := if capacity <= 0 then 1 else capacity;
      total, idle := 0, [];
    }

    /** The first critical section of create: takes a slot exactly when one is free. */
    method Reserve() returns (ok: bool)
      requires Valid()
      modifies this
      ensures Valid() && (ok ==> SlotOut())
      ensures ok <==> old(total) < capacity
      ensures idle == old(idle) && total == old(total) + if ok then 1 else 0
    {
      if total >= capacity {
        return false;
      }
      total := total + 1;
      return true;
    }

    /** A send that does not block; it cannot fail for a caller whose slot is counted. */
    method Put(s: Session) returns (ok: bool)
      requires Valid()
      modifies this
      ensures old(SlotOut()) ==> ok && Valid()
      ensures ok <==> |old(idle)| < capacity
      ensures total == old(total) && idle == if ok then old(idle) + [s] else old(idle)
    {
      if |idle| >= capacity {
        return false;
      }
      idle := idle + [s];
      return true;
    }

    /** A receive that does not block; the slot of the session received is then out. */
    method Receive() returns (s: Option<Session>)
      requires Valid()
      modifies this
      ensures Valid() && (s.Some? ==> SlotOut())
      ensures s.Some? <==> old(idle) != []
      ensures total == old(total) && old(idle) == if s.Some? then [s.value] + idle else idle
    {
      if idle == [] {
        return None;
      }
      s := Some(idle[0]);
      idle := idle[1..];
    }

    /** Gives one slot back; a caller whose slot is counted leaves the bucket in order. */
    method GiveBackSlot()
      requires Valid()
      modifies this
      ensures old(SlotOut()) ==> Valid() && total == old(total) - 1
      ensures total == (if old(total) > 0 then old(total) - 1 else old(total)) && idle == old(idle)
    {
      if total > 0 {
        total := total - 1;
      }
    }
  }
}
