/** The locked sections of the session pool, as functions from the state under the lock to the next one. */
module PoolSections {
  import Counting

  type Key = string

  /** A session's identity; the pool makes one entry object for each session, so it also names that object. */
  type Sid = nat

  /** `maxActive == 0` means unlimited. */
  datatype Config = Config(maxActive: int, idleTimeout: int, maxReconnectAttempts: int)

  datatype Entry = Entry(key: Key, inUse: bool, failed: bool, failures: nat, lastSeen: int)

  /** `entries` also keeps the entry objects that left the pool: a keepalive probe can still write to one.
      `closes` counts, for each session, how often the pool logged it out. */
  datatype Pool = Pool(
    sessions: map<Key, Sid>,
    entries: map<Sid, Entry>,
    closes: multiset<Sid>,
    totalConnects: nat,
    totalFailures: nat,
    totalReconnects: nat)

  const EMPTY_POOL := Pool(map[], map[], multiset{}, 0, 0, 0)

  ghost predicate WellFormed(p: Pool) {
    forall k | k in p.sessions :: p.sessions[k] in p.entries && p.entries[p.sessions[k]].key == k
  }

  predicate Pooled(p: Pool, s: Sid) {
    s in p.entries && p.entries[s].key in p.sessions && p.sessions[p.entries[s].key] == s
  }

  /** Every session is either in the pool and never closed, or out of it and closed exactly once;
      and the connect counter accounts for all of them. */
  ghost predicate Conserved(p: Pool) {
    && WellFormed(p)
    && (forall s | s in p.entries :: p.closes[s] == if Pooled(p, s) then 0 else 1)
    && (forall s | s !in p.entries :: p.closes[s] == 0)
    && p.totalConnects == |p.sessions| + |p.closes|
  }

  /** The keys that count against the session limit. */
  function Active(p: Pool): set<Key>
    requires WellFormed(p)
  {
    set k | k in p.sessions && !p.entries[p.sessions[k]].failed
  }

  function SidsOf(p: Pool, keys: set<Key>): set<Sid> {
    set k | k in keys && k in p.sessions :: p.sessions[k]
  }

  function CloseKeys(p: Pool, keys: set<Key>): Pool {
    p.(sessions := p.sessions - keys, closes := p.closes + multiset(SidsOf(p, keys)))
  }

  // ---- acquire

  datatype Checked = Reused(sid: Sid) | AtCapacity | MayConnect

  function Check(c: Config, p: Pool, key: Key): Checked
    requires WellFormed(p)
  {
    if key in p.sessions && !p.entries[p.sessions[key]].inUse && !p.entries[p.sessions[key]].failed then
      Reused(p.sessions[key])
    else if c.maxActive != 0 && |Active(p)| >= c.maxActive then
      AtCapacity
    else
      MayConnect
  }

  function AfterCheck(c: Config, p: Pool, key: Key, now: int): Pool
    requires WellFormed(p)
  {
    match Check(c, p, key)
    case Reused(s) => p.(entries := p.entries[s := p.entries[s].(inUse := true, lastSeen := now)])
    case _ => p
  }

  function Insert(p: Pool, key: Key, s: Sid, now: int): Pool {
    var q := CloseKeys(p, {key});
    q.(sessions := q.sessions[key := s],
       entries := q.entries[s := Entry(key, true, false, 0, now)],
       totalConnects := q.totalConnects + 1)
  }

  function ConnectFailed(p: Pool): Pool {
    p.(totalFailures := p.totalFailures + 1)
  }

  // ---- release, remove

  function Release(p: Pool, s: Sid, now: int): Pool {
    if Pooled(p, s) then
      p.(entries := p.entries[s := p.entries[s].(inUse := false, lastSeen := now)])
    else p
  }

  function Remove(p: Pool, s: Sid): Pool {
    if Pooled(p, s) then CloseKeys(p, {p.entries[s].key}) else p
  }

  // ---- keepalive

  function ProbeTargets(p: Pool): set<Sid>
    requires WellFormed(p)
  {
    set k | k in p.sessions && !p.entries[p.sessions[k]].inUse && !p.entries[p.sessions[k]].failed :: p.sessions[k]
  }

  /** The write-back after one probe. The entry may have been handed out, or have left the pool, meanwhile. */
  function ProbeDone(c: Config, p: Pool, s: Sid, ok: bool, now: int): Pool
    requires s in p.entries
  {
    var e := p.entries[s];
    var e' := if ok then e.(failures := 0, lastSeen := now)
              else e.(failures := e.failures + 1, failed := e.failed || e.failures + 1 >= c.maxReconnectAttempts);
    p.(entries := p.entries[s := e'])
  }

  // ---- eviction, reconnection, shutdown

  predicate Stale(c: Config, e: Entry, now: int) {
    !e.inUse && now - e.lastSeen > c.idleTimeout
  }

  function StaleKeys(c: Config, p: Pool, now: int): set<Key>
    requires WellFormed(p)
  {
    set k | k in p.sessions && Stale(c, p.entries[p.sessions[k]], now)
  }

  function Evict(c: Config, p: Pool, now: int): Pool
    requires WellFormed(p)
  {
    CloseKeys(p, StaleKeys(c, p, now))
  }

  function ReconnectDrop(p: Pool, key: Key): Pool {
    CloseKeys(p, {key})
  }

  function ReconnectTally(p: Pool): Pool {
    p.(totalReconnects := p.totalReconnects + 1)
  }

  function CloseAll(p: Pool): Pool {
    CloseKeys(p, p.sessions.Keys)
  }

  // ---- what closing and inserting keep

  lemma ClosedSizes(p: Pool, keys: set<Key>)
    requires WellFormed(p)
    ensures |CloseKeys(p, keys).sessions| + |CloseKeys(p, keys).closes| == |p.sessions| + |p.closes|
  {
    var gone := keys * p.sessions.Keys;
    assert SidsOf(p, keys) == set k | k in gone :: p.sessions[k];
    Counting.InjectiveImageSize(gone, (k: Key) requires k in p.sessions => p.sessions[k], SidsOf(p, keys));
    assert (p.sessions - keys).Keys == p.sessions.Keys - gone;
  }

  /** Closing a single key logs out its session, if it has one. */
  lemma ClosingKey(p: Pool, key: Key)
    ensures CloseKeys(p, {key}).closes
            == if key in p.sessions then p.closes + multiset{p.sessions[key]} else p.closes
    ensures key !in p.sessions ==> CloseKeys(p, {key}) == p
  {
    if key in p.sessions {
      assert SidsOf(p, {key}) == {p.sessions[key]};
    } else {
      assert SidsOf(p, {key}) == {};
      assert p.sessions - {key} == p.sessions;
    }
  }

  lemma ClosingConserves(p: Pool, keys: set<Key>)
    requires Conserved(p)
    ensures Conserved(CloseKeys(p, keys))
    ensures Active(CloseKeys(p, keys)) == Active(p) - keys
  {
    ClosingActive(p, keys);
    ClosedSizes(p, keys);
    forall s | s in p.entries ensures CloseKeys(p, keys).closes[s] == if Pooled(CloseKeys(p, keys), s) then 0 else 1 {
      ClosingOne(p, keys, s);
    }
  }

  lemma ClosingActive(p: Pool, keys: set<Key>)
    requires WellFormed(p)
    ensures WellFormed(CloseKeys(p, keys)) && Active(CloseKeys(p, keys)) == Active(p) - keys
  {}

  lemma ClosingOne(p: Pool, keys: set<Key>, s: Sid)
    requires Conserved(p) && s in p.entries
    ensures CloseKeys(p, keys).closes[s] == if Pooled(CloseKeys(p, keys), s) then 0 else 1
    ensures s in SidsOf(p, keys) <==> Pooled(p, s) && p.entries[s].key in keys
  {
    if s in SidsOf(p, keys) {
      var k :| k in keys && k in p.sessions && p.sessions[k] == s;
      assert p.entries[s].key == k;
    }
  }

  lemma InsertionConserves(p: Pool, key: Key, s: Sid, now: int)
    requires Conserved(p) && s !in p.entries
    ensures Conserved(Insert(p, key, s, now))
    ensures Active(Insert(p, key, s, now)) == Active(p) + {key}
  {
    ClosingConserves(p, {key});
    FreshKeyConserves(CloseKeys(p, {key}), Insert(p, key, s, now), key, s);
  }

  lemma FreshKeyConserves(q: Pool, r: Pool, key: Key, s: Sid)
    requires Conserved(q) && PutsFreshEntry(q, r, key, s)
    requires r.closes == q.closes && r.totalConnects == q.totalConnects + 1
    ensures Conserved(r) && Active(r) == Active(q) + {key}
  {
    FreshKeyKeepsShape(q, r, key, s);
    FreshKeyIsActive(q, r, key, s);
    forall x | x in r.entries ensures r.closes[x] == if Pooled(r, x) then 0 else 1 {
      assert x == s || x in q.entries;
    }
    FreshKeySize(q.sessions, key, s);
  }

  lemma FreshKeySize(m: map<Key, Sid>, key: Key, s: Sid)
    requires key !in m
    ensures |m[key := s]| == |m| + 1
  {
    assert m[key := s].Keys == m.Keys + {key};
  }

  ghost predicate PutsFreshEntry(q: Pool, r: Pool, key: Key, s: Sid) {
    && s !in q.entries && key !in q.sessions
    && r.sessions == q.sessions[key := s]
    && s in r.entries && r.entries == q.entries[s := r.entries[s]]
    && r.entries[s].key == key && !r.entries[s].failed
  }

  lemma FreshKeyKeepsShape(q: Pool, r: Pool, key: Key, s: Sid)
    requires WellFormed(q) && PutsFreshEntry(q, r, key, s)
    ensures WellFormed(r)
    ensures Pooled(r, s)
    ensures forall x | x in q.entries :: Pooled(r, x) == Pooled(q, x)
  {
    forall k | k in r.sessions ensures r.sessions[k] in r.entries && r.entries[r.sessions[k]].key == k {
      assert k == key || k in q.sessions;
    }
  }

  lemma FreshKeyIsActive(q: Pool, r: Pool, key: Key, s: Sid)
    requires WellFormed(q) && WellFormed(r) && PutsFreshEntry(q, r, key, s)
    ensures Active(r) == Active(q) + {key}
  {
    forall k ensures k in Active(r) <==> k in Active(q) || k == key {
      if k in q.sessions {
        assert q.sessions[k] != s;
      }
    }
  }

  /** Rewriting the flags of a known entry moves no session in or out of the pool. */
  lemma FlagsConserve(p: Pool, s: Sid, e: Entry)
    requires Conserved(p) && s in p.entries && e.key == p.entries[s].key
    ensures Conserved(p.(entries := p.entries[s := e]))
  {
    var q := p.(entries := p.entries[s := e]);
    forall x | x in q.entries ensures Pooled(q, x) == Pooled(p, x) {}
  }

  // ---- what callers and probes achieve

  /** A released session is what the next acquire for its key gets. */
  lemma ReleasedIsReused(c: Config, p: Pool, s: Sid, now: int)
    requires WellFormed(p) && Pooled(p, s) && !p.entries[s].failed
    ensures WellFormed(Release(p, s, now))
    ensures Check(c, Release(p, s, now), p.entries[s].key) == Reused(s)
  {
    var q := Release(p, s, now);
    forall k | k in q.sessions ensures q.sessions[k] in q.entries && q.entries[q.sessions[k]].key == k {
      assert p.entries[p.sessions[k]].key == k;
    }
  }

  function AfterFailures(c: Config, p: Pool, s: Sid, n: nat, now: int): (q: Pool)
    requires s in p.entries
    ensures s in q.entries
  {
    if n == 0 then p else ProbeDone(c, AfterFailures(c, p, s, n - 1, now), s, false, now)
  }

  /** After a successful probe, a session is marked failed by exactly the configured number of failures in a row
      (by the first one if that number is not positive). */
  lemma {:induction false} FailuresInARow(c: Config, p: Pool, s: Sid, n: nat, now: int)
    requires s in p.entries && !p.entries[s].failed
    ensures var e := AfterFailures(c, ProbeDone(c, p, s, true, now), s, n, now).entries[s];
            e.failures == n && (e.failed <==> n > 0 && n >= c.maxReconnectAttempts)
    decreases n
  {
    if n > 0 {
      FailuresInARow(c, p, s, n - 1, now);
    }
  }

  // ---- which sessions eviction spares

  /** Eviction spares a session exactly when an acquire for its key would still get it. */
  lemma SparedIsReused(c: Config, p: Pool, s: Sid, now: int)
    requires WellFormed(p) && Pooled(p, s) && !p.entries[s].failed && !p.entries[s].inUse
    ensures WellFormed(Evict(c, p, now))
    ensures Check(c, Evict(c, p, now), p.entries[s].key) == Reused(s) <==> now - p.entries[s].lastSeen <= c.idleTimeout
  {
    ClosingActive(p, StaleKeys(c, p, now));
  }

  /** Failed or not, a session stays in the pool exactly while it is in use or was seen within the timeout. */
  lemma StaysPooledIff(c: Config, p: Pool, s: Sid, now: int)
    requires WellFormed(p) && Pooled(p, s)
    ensures Pooled(Evict(c, p, now), s) <==> p.entries[s].inUse || now - p.entries[s].lastSeen <= c.idleTimeout
  {}

  /** After a release at time `t`, a session is evicted exactly when more than the timeout has passed since. */
  lemma ReleasedIsEvictedIff(c: Config, p: Pool, s: Sid, t: int, now: int)
    requires WellFormed(p) && Pooled(p, s) && !p.entries[s].failed
    ensures WellFormed(Release(p, s, t)) && WellFormed(Evict(c, Release(p, s, t), now))
    ensures Check(c, Evict(c, Release(p, s, t), now), p.entries[s].key) == Reused(s) <==> now - t <= c.idleTimeout
  {
    ReleasedIsReused(c, p, s, t);
    SparedIsReused(c, Release(p, s, t), s, now);
  }

  /** A newly connected session is never evicted while its caller has it, and after its release as any other. */
  lemma InsertedIsEvictedIff(c: Config, p: Pool, key: Key, s: Sid, t0: int, t: int, now: int)
    requires Conserved(p) && s !in p.entries
    ensures var q := Insert(p, key, s, t0);
            && WellFormed(q) && Pooled(q, s) && Pooled(Evict(c, q, now), s)
            && WellFormed(Release(q, s, t)) && WellFormed(Evict(c, Release(q, s, t), now))
            && (Check(c, Evict(c, Release(q, s, t), now), key) == Reused(s) <==> now - t <= c.idleTimeout)
  {
    InsertionConserves(p, key, s, t0);
    ReleasedIsEvictedIff(c, Insert(p, key, s, t0), s, t, now);
  }

  /** A reused session is in use, so that no eviction takes it before its release, and counts from then. */
  lemma ReusedIsEvictedIff(c: Config, p: Pool, s: Sid, t0: int, t: int, now: int)
    requires WellFormed(p) && Pooled(p, s) && Check(c, p, p.entries[s].key) == Reused(s)
    ensures var q := AfterCheck(c, p, p.entries[s].key, t0);
            && WellFormed(q) && Pooled(q, s) && Pooled(Evict(c, q, now), s)
            && Check(c, q, p.entries[s].key) != Reused(s)
            && WellFormed(Release(q, s, t)) && WellFormed(Evict(c, Release(q, s, t), now))
            && (Check(c, Evict(c, Release(q, s, t), now), p.entries[s].key) == Reused(s) <==> now - t <= c.idleTimeout)
  {
    var q := AfterCheck(c, p, p.entries[s].key, t0);
    forall k | k in q.sessions ensures q.sessions[k] in q.entries && q.entries[q.sessions[k]].key == k {
      assert p.entries[p.sessions[k]].key == k;
    }
    ReleasedIsEvictedIff(c, q, s, t, now);
  }

  /** A good probe counts as use of an idle session, a failed one does not. */
  lemma ProbedIsEvictedIff(c: Config, p: Pool, s: Sid, ok: bool, t: int, now: int)
    requires WellFormed(p) && Pooled(p, s) && !p.entries[s].inUse && !ProbeDone(c, p, s, ok, t).entries[s].failed
    ensures var q := ProbeDone(c, p, s, ok, t);
            && WellFormed(q) && WellFormed(Evict(c, q, now))
            && (Check(c, Evict(c, q, now), p.entries[s].key) == Reused(s) <==>
                  now - (if ok then t else p.entries[s].lastSeen) <= c.idleTimeout)
  {
    var q := ProbeDone(c, p, s, ok, t);
    forall k | k in q.sessions ensures q.sessions[k] in q.entries && q.entries[q.sessions[k]].key == k {
      assert p.entries[p.sessions[k]].key == k;
    }
    SparedIsReused(c, q, s, now);
  }

  /** The sessions that keepalive probes are exactly those that some acquire would get. */
  lemma ProbedIffReusable(c: Config, p: Pool, s: Sid)
    requires WellFormed(p)
    ensures s in ProbeTargets(p) <==> exists k :: Check(c, p, k) == Reused(s)
  {
    if s in ProbeTargets(p) {
      var k :| k in p.sessions && p.sessions[k] == s && !p.entries[s].inUse && !p.entries[s].failed;
      assert Check(c, p, k) == Reused(s);
    }
  }

  /** Without a limit no acquire is refused; with one, a key without a reusable session is refused iff the sessions
      that are not failed have reached it. */
  lemma RefusedIffFull(c: Config, p: Pool, key: Key)
    requires WellFormed(p) && forall s :: Check(c, p, key) != Reused(s)
    ensures Check(c, p, key) == AtCapacity <==>
              c.maxActive != 0 && |set k | k in p.sessions && !p.entries[p.sessions[k]].failed| >= c.maxActive
  {
    assert Active(p) == set k | k in p.sessions && !p.entries[p.sessions[k]].failed;
  }
}
