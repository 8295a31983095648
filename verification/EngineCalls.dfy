/** What the pool's calls do when each runs to its end on its own, and that a failed session is never used again. */
module EngineCalls {
  import opened EnginePool
  import opened Options

  /** Only this bucket may have changed. */
  ghost predicate OthersStay(p: Pool, q: Pool, key: Key) {
    q.capacity == p.capacity && forall k :: k != key ==> BucketOf(q, k) == BucketOf(p, k)
  }

  // ---------------------------------------------------------------- Release

  /** Released with an error, a tracked session is forgotten and its slot given back. */
  lemma FailedRelease(p: Pool, t: nat, key: Key, s: Session)
    requires Inv(p) && PcOf(p, t) == Holding(key, s) && s in p.tracked
    ensures var q := Step(Step(p, Release(t, true)), Drop(t));
            && PcOf(q, t) == Ready && s !in q.tracked && OthersStay(p, q, key)
            && BucketOf(q, key) == Bucket(BucketOf(p, key).total - 1, BucketOf(p, key).idle)
            && forall k :: s !in BucketOf(q, k).idle
  {
    assert Has(p, With(t), s);
    assert PlaceOk(p, With(t), s);
    assert SlotsOk(p, key);
    SlotIsCounted(p, t, key);
    forall k ensures s !in BucketOf(p, k).idle {
      NotIdle(p, t, k, s);
    }
  }

  lemma NotIdle(p: Pool, t: nat, k: Key, s: Session)
    requires NoSharing(p) && SessionOf(PcOf(p, t)) == Some(s)
    ensures s !in BucketOf(p, k).idle
  {
    assert Has(p, With(t), s);
    forall i | 0 <= i < |BucketOf(p, k).idle| ensures BucketOf(p, k).idle[i] != s {
      assert BucketOf(p, k).idle[i] == s <==> Has(p, Idle(k, i), s);
    }
  }

  /** Released without one, it stands at the back of the channel, still tracked and still counted. */
  lemma SoundRelease(p: Pool, t: nat, key: Key, s: Session)
    requires Inv(p) && PcOf(p, t) == Holding(key, s) && s in p.tracked
    ensures var q := Step(Step(p, Release(t, false)), EnginePool.Put(t));
            && PcOf(q, t) == Ready && q.tracked == p.tracked && OthersStay(p, q, key)
            && BucketOf(q, key) == Bucket(BucketOf(p, key).total, BucketOf(p, key).idle + [s])
  {
    assert Has(p, With(t), s);
    assert PlaceOk(p, With(t), s);
    var u := Step(p, Release(t, false));
    assert u == Goto(p, t, Putting(key, s));
    MoveKeepsInv(p, t, Putting(key, s));
    SendHasRoom(u, t, key, s);
  }

  /** A session that Close forgot is closed and nothing else changes, error or not. */
  lemma ForgottenRelease(p: Pool, t: nat, key: Key, s: Session, failed: bool)
    requires PcOf(p, t) == Holding(key, s) && s !in p.tracked
    ensures Step(p, Release(t, failed)) == Goto(p, t, Ready)
  {
  }

  // ---------------------------------------------------------------- Acquire

  lemma AcquireSeeks(p: Pool, t: nat, key: Key)
    requires PcOf(p, t) == Ready
    ensures var q := Step(p, Acquire(t, key));
            && PcOf(q, t) == Seeking(key) && (forall k :: BucketOf(q, k) == BucketOf(p, k))
            && q.tracked == p.tracked && q.next == p.next && q.capacity == p.capacity
  {
  }

  /** An idle session that is ready is handed out: the one at the front of the channel. */
  lemma AcquiresIdle(p: Pool, t: nat, key: Key, s: Session, rest: seq<Session>)
    requires PcOf(p, t) == Seeking(key) && BucketOf(p, key).idle == [s] + rest
    ensures var q := Step(Step(Step(p, TryTake(t)), ReadyOk(t)), Track(t));
            && PcOf(q, t) == Holding(key, s) && s in q.tracked && q.tracked[s] == key && OthersStay(p, q, key)
            && BucketOf(q, key) == Bucket(BucketOf(p, key).total, rest)
  {
    var q1 := Step(p, TryTake(t));
    assert q1 == Goto(SetBucket(p, key, Bucket(BucketOf(p, key).total, rest)), t, Checking(key, s));
    assert Step(q1, ReadyOk(t)) == Goto(q1, t, Tracking(key, s));
  }

  /** An idle session that is not ready is forgotten, its slot given back, and the search goes on. */
  lemma DiscardsIdle(p: Pool, t: nat, key: Key, s: Session, rest: seq<Session>)
    requires PcOf(p, t) == Seeking(key) && BucketOf(p, key).idle == [s] + rest
    requires s in p.tracked && p.tracked[s] == key && BucketOf(p, key).total > 0
    ensures var q := Step(Step(Step(Step(p, TryTake(t)), ReadyFails(t)), Reject(t)), Drop(t));
            && PcOf(q, t) == Seeking(key) && s !in q.tracked && OthersStay(p, q, key)
            && BucketOf(q, key) == Bucket(BucketOf(p, key).total - 1, rest)
  {
    var q1 := Step(p, TryTake(t));
    assert q1 == Goto(SetBucket(p, key, Bucket(BucketOf(p, key).total, rest)), t, Checking(key, s));
    var q2 := Goto(q1, t, Rejecting(key, s));
    assert Step(q1, ReadyFails(t)) == q2;
    assert Step(q2, Reject(t)) == Goto(Forget(q2, s), t, Dropping(key, s, Some(key)));
  }

  /** Nothing idle and a slot free: the call takes the slot and starts a process. */
  lemma TakesSlot(p: Pool, t: nat, key: Key)
    requires PcOf(p, t) == Seeking(key) && BucketOf(p, key).idle == [] && BucketOf(p, key).total < p.capacity
    ensures var q := Step(Step(p, TryTake(t)), EnginePool.Reserve(t));
            && PcOf(q, t) == Starting(key) && q.next == p.next && q.tracked == p.tracked && OthersStay(p, q, key)
            && BucketOf(q, key) == Bucket(BucketOf(p, key).total + 1, [])
  {
    var q := Goto(p, t, Reserving(key));
    assert Step(p, TryTake(t)) == q;
    assert Step(q, EnginePool.Reserve(t)) ==
           Goto(SetBucket(q, key, Bucket(BucketOf(p, key).total + 1, [])), t, Starting(key));
  }

  /** The process has started: its session gets the next number, is recorded and handed out. */
  lemma StartSucceeds(p: Pool, t: nat, key: Key)
    requires PcOf(p, t) == Starting(key)
    ensures var q := Step(Step(p, StartOk(t)), Track(t));
            && PcOf(q, t) == Holding(key, p.next) && q.next == p.next + 1 && q.tracked == p.tracked[p.next := key]
            && q.buckets == p.buckets && q.capacity == p.capacity
  {
    assert Step(p, StartOk(t)) == Goto(p.(next := p.next + 1), t, Tracking(key, p.next));
  }

  /** So Acquire hands out a new session, counted in its bucket. */
  lemma AcquiresNew(p: Pool, t: nat, key: Key)
    requires PcOf(p, t) == Seeking(key) && BucketOf(p, key).idle == [] && BucketOf(p, key).total < p.capacity
    ensures var q := Step(Step(Step(Step(p, TryTake(t)), EnginePool.Reserve(t)), StartOk(t)), Track(t));
            && PcOf(q, t) == Holding(key, p.next) && q.next == p.next + 1 && q.tracked == p.tracked[p.next := key]
            && OthersStay(p, q, key) && BucketOf(q, key) == Bucket(BucketOf(p, key).total + 1, [])
  {
    TakesSlot(p, t, key);
    StartSucceeds(Step(Step(p, TryTake(t)), EnginePool.Reserve(t)), t, key);
  }

  lemma UndoGivesBack(p: Pool, t: nat, key: Key)
    requires PcOf(p, t) == Starting(key) && BucketOf(p, key).total > 0
    ensures var q := Step(Step(p, StartFails(t)), Undo(t));
            && PcOf(q, t) == Ready && q.tracked == p.tracked && OthersStay(p, q, key)
            && BucketOf(q, key) == Bucket(BucketOf(p, key).total - 1, BucketOf(p, key).idle)
  {
    assert Step(p, StartFails(t)) == Goto(p, t, Undoing(key));
  }

  /** If it cannot be started the slot is given back and the call ends. */
  lemma StartingFails(p: Pool, t: nat, key: Key)
    requires PcOf(p, t) == Seeking(key) && BucketOf(p, key).idle == [] && 0 <= BucketOf(p, key).total < p.capacity
    ensures var q := Step(Step(Step(Step(p, TryTake(t)), EnginePool.Reserve(t)), StartFails(t)), Undo(t));
            PcOf(q, t) == Ready && q.tracked == p.tracked && forall k :: BucketOf(q, k) == BucketOf(p, k)
  {
    TakesSlot(p, t, key);
    UndoGivesBack(Step(Step(p, TryTake(t)), EnginePool.Reserve(t)), t, key);
  }

  /** Nothing idle and no slot free: the call waits until a session is sent or it is cancelled. */
  lemma WaitsAtCapacity(p: Pool, t: nat, key: Key)
    requires PcOf(p, t) == Seeking(key) && BucketOf(p, key).idle == [] && BucketOf(p, key).total >= p.capacity
    ensures var q := Step(Step(p, TryTake(t)), EnginePool.Reserve(t));
            && PcOf(q, t) == Waiting(key) && PcOf(Step(q, Block(t)), t) == Waiting(key)
            && PcOf(Step(q, Cancel(t)), t) == Ready && forall k :: BucketOf(q, k) == BucketOf(p, k)
  {
    assert Step(p, TryTake(t)) == Goto(p, t, Reserving(key));
  }

  /** A waiting call takes the front of the channel once there is one. */
  lemma WaiterTakes(p: Pool, t: nat, key: Key, s: Session, rest: seq<Session>)
    requires PcOf(p, t) == Waiting(key) && BucketOf(p, key).idle == [s] + rest
    ensures var q := Step(p, Block(t));
            && PcOf(q, t) == Checking(key, s) && OthersStay(p, q, key)
            && BucketOf(q, key) == Bucket(BucketOf(p, key).total, rest)
  {
  }

  // ---------------------------------------------------------------- Close

  /** Receiving one idle session and giving its slot back. */
  lemma DrainsOne(p: Pool, t: nat, rest: seq<Key>)
    requires Inv(p) && PcOf(p, t) == Closing(rest) && rest != [] && BucketOf(p, rest[0]).idle != []
    ensures var key, q := rest[0], Step(Step(p, Drain(t)), Shut(t));
            && PcOf(q, t) == Closing(rest) && OthersStay(p, q, key) && q.tracked == p.tracked
            && BucketOf(q, key) == Bucket(BucketOf(p, key).total - 1, BucketOf(p, key).idle[1..])
  {
    var key := rest[0];
    var b := BucketOf(p, key);
    var q1 := Step(p, Drain(t));
    assert q1 == Goto(SetBucket(p, key, Bucket(b.total, b.idle[1..])), t, Shutting(key, b.idle[0], rest));
    assert SlotsOk(p, key);
    assert Step(q1, Shut(t)) == GiveBack(q1, t, key, Closing(rest));
  }

  /** Events of this goroutine only lead from one pool to the other. */
  ghost predicate ReachedBy(p: Pool, t: nat, q: Pool) {
    exists es: seq<Event> :: (forall e :: e in es ==> e.t == t) && q == Then(p, es)
  }

  function Then(p: Pool, es: seq<Event>): Pool
    decreases |es|
  {
    if es == [] then p else Then(Step(p, es[0]), es[1..])
  }

  lemma ThenCons(p: Pool, e: Event, es: seq<Event>)
    ensures Then(p, [e] + es) == Then(Step(p, e), es)
  {
    assert ([e] + es)[1..] == es;
  }

  lemma AloneReaches(p: Pool, e: Event, u: Pool, q: Pool)
    requires u == Step(p, e) && ReachedBy(u, e.t, q)
    ensures ReachedBy(p, e.t, q)
  {
    var es: seq<Event> :| (forall x :: x in es ==> x.t == e.t) && q == Then(u, es);
    ThenCons(p, e, es);
  }

  /** Draining is finished: these buckets are empty and count what was not idle; the others are as they were. */
  ghost predicate Drained(p: Pool, q: Pool, keys: seq<Key>) {
    forall k :: BucketOf(q, k) ==
                if k in keys then Bucket(BucketOf(p, k).total - |BucketOf(p, k).idle|, []) else BucketOf(p, k)
  }

  lemma DrainedFrom(p: Pool, v: Pool, q: Pool, keys: seq<Key>, key: Key)
    requires key in keys && BucketOf(p, key).idle != [] && OthersStay(p, v, key) && Drained(v, q, keys)
    requires BucketOf(v, key) == Bucket(BucketOf(p, key).total - 1, BucketOf(p, key).idle[1..])
    ensures Drained(p, q, keys)
  {
  }

  lemma DrainedPast(p: Pool, u: Pool, q: Pool, key: Key, rest: seq<Key>)
    requires BucketOf(p, key).idle == [] && Drained(u, q, rest) && forall k :: BucketOf(u, k) == BucketOf(p, k)
    ensures Drained(p, q, [key] + rest)
  {
  }

  /** An empty channel is passed over. */
  lemma DrainPasses(p: Pool, t: nat, rest: seq<Key>)
    requires PcOf(p, t) == Closing(rest) && rest != [] && BucketOf(p, rest[0]).idle == []
    ensures Step(p, Drain(t)) == Goto(p, t, Closing(rest[1..]))
  {
  }

  /** Close on its own closes every idle session of the buckets it has left. */
  lemma {:induction false} DrainsAll(p: Pool, t: nat, rest: seq<Key>) returns (q: Pool)
    requires Inv(p) && PcOf(p, t) == Closing(rest)
    ensures ReachedBy(p, t, q) && PcOf(q, t) == Ready && q.tracked == p.tracked && Drained(p, q, rest)
    decreases |rest|, if rest == [] then 0 else |BucketOf(p, rest[0]).idle|
  {
    if rest == [] {
      q := Step(p, Drain(t));
      assert Then(q, []) == q;
      AloneReaches(p, Drain(t), q, q);
    } else if BucketOf(p, rest[0]).idle == [] {
      var u := Step(p, Drain(t));
      DrainKeepsInv(p, Drain(t));
      DrainPasses(p, t, rest);
      q := DrainsAll(u, t, rest[1..]);
      AloneReaches(p, Drain(t), u, q);
      assert rest == [rest[0]] + rest[1..];
      DrainedPast(p, u, q, rest[0], rest[1..]);
    } else {
      var u := Step(p, Drain(t));
      var v := Step(u, Shut(t));
      DrainKeepsInv(p, Drain(t));
      DrainKeepsInv(u, Shut(t));
      DrainsOne(p, t, rest);
      q := DrainsAll(v, t, rest);
      AloneReaches(u, Shut(t), v, q);
      AloneReaches(p, Drain(t), u, q);
      DrainedFrom(p, v, q, rest, rest[0]);
    }
  }

  // ---------------------------------------------------------------- failed sessions are gone for good

  /** The goroutine at this point is only about to look the session up or to close it. */
  predicate Discarding(pc: Pc) {
    pc.Rejecting? || pc.Dropping?
  }

  /** No channel holds the session, and nobody but a goroutine that discards it. */
  ghost predicate Retired(p: Pool, s: Session) {
    && s < p.next
    && (forall k :: s !in BucketOf(p, k).idle)
    && (forall t :: SessionOf(PcOf(p, t)) == Some(s) ==> Discarding(PcOf(p, t)))
  }

  /** The caller releases the session as failed, or it fails its readiness check. */
  predicate FailsNow(p: Pool, e: Event, s: Session) {
    || (e.Release? && e.failed && PcOf(p, e.t).Holding? && PcOf(p, e.t).s == s)
    || (e.ReadyFails? && PcOf(p, e.t).Checking? && PcOf(p, e.t).s == s)
  }

  /** A failure changes no channel, and only its own goroutine still has the session, to close it. */
  lemma FailureMoves(p: Pool, e: Event, s: Session)
    requires FailsNow(p, e, s)
    ensures SessionOf(PcOf(Step(p, e), e.t)).Some? ==> Discarding(PcOf(Step(p, e), e.t))
    ensures Step(p, e).buckets == p.buckets && Step(p, e).next == p.next
  {
  }

  lemma FailureRetires(p: Pool, e: Event, s: Session)
    requires Inv(p) && FailsNow(p, e, s)
    ensures Retired(Step(p, e), s)
  {
    var q := Step(p, e);
    FailureMoves(p, e, s);
    assert Has(p, With(e.t), s);
    assert PlaceOk(p, With(e.t), s);
    forall k ensures s !in BucketOf(q, k).idle {
      NotIdle(p, e.t, k, s);
    }
    forall u | SessionOf(PcOf(q, u)) == Some(s) ensures Discarding(PcOf(q, u)) {
      if u != e.t {
        OthersStayPut(p, e, u);
        OneHolder(p, e.t, u, s);
      }
    }
  }

  lemma OneHolder(p: Pool, t: nat, u: nat, s: Session)
    requires NoSharing(p) && SessionOf(PcOf(p, t)) == Some(s) && SessionOf(PcOf(p, u)) == Some(s)
    ensures t == u
  {
    assert Has(p, With(t), s) && Has(p, With(u), s);
  }

  /** Only a send puts a session into a channel. */
  lemma OnlyPutSends(p: Pool, e: Event, k: Key, s: Session)
    requires s !in BucketOf(p, k).idle && !e.Put?
    ensures s !in BucketOf(Step(p, e), k).idle
  {
    if e.Acquire? || e.TryTake? || e.Block? || e.Drain? {
      var idle := BucketOf(Step(p, e), k).idle;
      assert idle == BucketOf(p, k).idle || idle == BucketOf(p, k).idle[1..];
    } else {
      assert BucketOf(Step(p, e), k).idle == BucketOf(p, k).idle;
    }
  }

  /** A send puts its own goroutine's session into the channel. */
  lemma PutSendsOwn(p: Pool, t: nat, k: Key, s: Session)
    requires s !in BucketOf(p, k).idle && (SessionOf(PcOf(p, t)) == Some(s) ==> Discarding(PcOf(p, t)))
    ensures s !in BucketOf(Step(p, EnginePool.Put(t)), k).idle
  {
  }

  /** An event's own goroutine does not come to have a session that nobody uses. */
  lemma OwnStaysDiscarding(p: Pool, e: Event, s: Session)
    requires s < p.next && (SessionOf(PcOf(p, e.t)) == Some(s) ==> Discarding(PcOf(p, e.t)))
    requires forall k :: s !in BucketOf(p, k).idle
    ensures SessionOf(PcOf(Step(p, e), e.t)) == Some(s) ==> Discarding(PcOf(Step(p, e), e.t))
    ensures s < Step(p, e).next
  {
    var pc := PcOf(p, e.t);
    if e.TryTake? || e.Block? || e.Drain? {
      OwnTakesOther(p, e, s);
    } else if e.StartOk? || e.Track? || e.Reserve? || e.Undo? || e.StartFails? {
      OwnStartsOther(p, e, s);
    } else if SessionOf(pc) != Some(s) {
      OwnKeepsOther(p, e, s);
    }
  }

  lemma OwnTakesOther(p: Pool, e: Event, s: Session)
    requires s < p.next && (SessionOf(PcOf(p, e.t)) == Some(s) ==> Discarding(PcOf(p, e.t)))
    requires (forall k :: s !in BucketOf(p, k).idle) && (e.TryTake? || e.Block? || e.Drain?)
    ensures SessionOf(PcOf(Step(p, e), e.t)) == Some(s) ==> Discarding(PcOf(Step(p, e), e.t))
    ensures s < Step(p, e).next
  {
  }

  lemma OwnStartsOther(p: Pool, e: Event, s: Session)
    requires s < p.next && (SessionOf(PcOf(p, e.t)) == Some(s) ==> Discarding(PcOf(p, e.t)))
    requires e.StartOk? || e.Track? || e.Reserve? || e.Undo? || e.StartFails?
    ensures SessionOf(PcOf(Step(p, e), e.t)) == Some(s) ==> Discarding(PcOf(Step(p, e), e.t))
    ensures s < Step(p, e).next
  {
  }

  lemma OwnKeepsOther(p: Pool, e: Event, s: Session)
    requires s < p.next && SessionOf(PcOf(p, e.t)) != Some(s)
    requires !e.TryTake? && !e.Block? && !e.Drain? && !e.StartOk? && !e.Track? && !e.Reserve? && !e.Undo?
    ensures SessionOf(PcOf(Step(p, e), e.t)) != Some(s)
    ensures s < Step(p, e).next
  {
  }

  lemma StaysRetired(p: Pool, e: Event, s: Session)
    requires Retired(p, s)
    ensures Retired(Step(p, e), s)
  {
    OwnStaysDiscarding(p, e, s);
    forall k ensures s !in BucketOf(Step(p, e), k).idle {
      if e.Put? {
        PutSendsOwn(p, e.t, k, s);
      } else {
        OnlyPutSends(p, e, k, s);
      }
    }
    forall u | u != e.t ensures PcOf(Step(p, e), u) == PcOf(p, u) {
      OthersStayPut(p, e, u);
    }
  }

  /** Some event of the run failed the session. */
  ghost predicate Failed(capacity: nat, es: seq<Event>, s: Session) {
    es != [] && (FailsNow(Run(capacity, es[..|es| - 1]), es[|es| - 1], s) || Failed(capacity, es[..|es| - 1], s))
  }

  /** In every interleaving a session that failed is never idle and never handed out again. */
  lemma {:induction false} FailedIsGone(capacity: nat, es: seq<Event>, s: Session)
    requires Failed(capacity, es, s)
    ensures Retired(Run(capacity, es), s)
    ensures forall t, key :: PcOf(Run(capacity, es), t) != Holding(key, s)
  {
    var before, e := es[..|es| - 1], es[|es| - 1];
    var p := Run(capacity, before);
    if FailsNow(p, e, s) {
      RunKeepsInv(capacity, before);
      FailureRetires(p, e, s);
    } else {
      FailedIsGone(capacity, before, s);
      StaysRetired(p, e, s);
    }
    assert Run(capacity, es) == Step(p, e);
    forall t, key ensures PcOf(Run(capacity, es), t) != Holding(key, s) {
      assert SessionOf(PcOf(Run(capacity, es), t)) == Some(s) ==> Discarding(PcOf(Run(capacity, es), t));
    }
  }
}
