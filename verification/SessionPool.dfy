/** The session pool as the object the callers share: each method is what one thread does while it holds the lock. */
module SessionPool {
  import Counting
  import opened PoolSections

  class ConnectionPool {
    const config: Config
    var sessions: map<Key, Sid>
    var entries: map<Sid, Entry>
    var totalConnects: nat
    var totalFailures: nat
    var totalReconnects: nat
    /** The log of logout and cleanup calls, whose own failures the pool suppresses. */
    ghost var closes: multiset<Sid>

    ghost function View(): Pool
      reads this
    {
      Pool(sessions, entries, closes, totalConnects, totalFailures, totalReconnects)
    }

    constructor (config: Config)
      ensures this.config == config && View() == EMPTY_POOL
    {
      this.config := config;
      sessions, entries, closes := map[], map[], multiset{};
      totalConnects, totalFailures, totalReconnects := 0, 0, 0;
    }

    method CloseEntry(s: Sid)
      modifies this`closes
      ensures closes == old(closes) + multiset{s}
    {
      closes := closes + multiset{s};
    }

    method ActiveCount() returns (n: nat)
      requires WellFormed(View())
      ensures n == |Active(View())|
    {
      var keys := sessions.Keys;
      n := 0;
      while keys != {}
        invariant keys <= sessions.Keys
        invariant n == |Active(View()) - keys|
        decreases keys
      {
        var k :| k in keys;
        Counting.RemainderStep(Active(View()), keys, k);
        if !entries[sessions[k]].failed {
          n := n + 1;
        }
        keys := keys - {k};
      }
    }

    method AcquireCheck(key: Key, now: int) returns (r: Checked)
      requires WellFormed(View())
      modifies this`entries
      ensures r == Check(config, old(View()), key)
      ensures View() == AfterCheck(config, old(View()), key, now)
    {
      if key in sessions {
        var s := sessions[key];
        if !entries[s].inUse && !entries[s].failed {
          entries := entries[s := entries[s].(inUse := true, lastSeen := now)];
          return Reused(s);
        }
      }
      if config.maxActive != 0 {
        var n := ActiveCount();
        if n >= config.maxActive {
          return AtCapacity;
        }
      }
      r := MayConnect;
    }

    method AcquireInsert(key: Key, s: Sid, now: int)
      requires WellFormed(View())
      modifies this`sessions, this`entries, this`closes, this`totalConnects
      ensures View() == Insert(old(View()), key, s, now)
    {
      ClosingKey(View(), key);
      if key in sessions {
        CloseEntry(sessions[key]);
      }
      assert (sessions - {key})[key := s] == sessions[key := s];
      sessions := sessions[key := s];
      entries := entries[s := Entry(key, true, false, 0, now)];
      totalConnects := totalConnects + 1;
    }

    method ReleaseSession(s: Sid, now: int)
      requires WellFormed(View())
      modifies this`entries
      ensures View() == Release(old(View()), s, now)
    {
      var keys := sessions.Keys;
      while keys != {}
        invariant keys <= sessions.Keys
        invariant entries == old(entries)
        invariant forall k | k in sessions && k !in keys :: sessions[k] != s
        decreases keys
      {
        var k :| k in keys;
        if sessions[k] == s {
          entries := entries[s := entries[s].(inUse := false, lastSeen := now)];
          return;
        }
        keys := keys - {k};
      }
    }

    method RemoveSession(s: Sid)
      requires WellFormed(View())
      modifies this`sessions, this`closes
      ensures View() == Remove(old(View()), s)
    {
      var keys := sessions.Keys;
      while keys != {}
        invariant keys <= sessions.Keys
        invariant View() == old(View())
        invariant forall k | k in sessions && k !in keys :: sessions[k] != s
        decreases keys
      {
        var k :| k in keys;
        if sessions[k] == s {
          ClosingKey(View(), k);
          sessions := sessions - {k};
          CloseEntry(s);
          return;
        }
        keys := keys - {k};
      }
    }

    /** The idle sessions a keepalive round will probe, each once. */
    method KeepaliveSnapshot() returns (targets: seq<Sid>)
      requires WellFormed(View())
      ensures Counting.Lists(targets, ProbeTargets(View()))
    {
      var keys := sessions.Keys;
      targets := [];
      while keys != {}
        invariant keys <= sessions.Keys
        invariant Counting.Lists(targets, set k | k in sessions && k !in keys && !entries[sessions[k]].inUse
                                         && !entries[sessions[k]].failed :: sessions[k])
        decreases keys
      {
        var k :| k in keys;
        ghost var before := set j | j in sessions && j !in keys && !entries[sessions[j]].inUse
                                    && !entries[sessions[j]].failed :: sessions[j];
        assert forall j | j in sessions && sessions[j] == sessions[k] :: j == k;
        keys := keys - {k};
        ghost var after := set j | j in sessions && j !in keys && !entries[sessions[j]].inUse
                                   && !entries[sessions[j]].failed :: sessions[j];
        if !entries[sessions[k]].inUse && !entries[sessions[k]].failed {
          assert after == before + {sessions[k]};
          targets := targets + [sessions[k]];
        } else {
          assert after == before;
        }
      }
    }

    method ProbeWriteBack(s: Sid, ok: bool, now: int)
      requires s in entries
      modifies this`entries
      ensures View() == ProbeDone(config, old(View()), s, ok, now)
    {
      var e := entries[s];
      if ok {
        e := e.(failures := 0, lastSeen := now);
      } else {
        e := e.(failures := e.failures + 1);
        if e.failures >= config.maxReconnectAttempts {
          e := e.(failed := true);
        }
      }
      entries := entries[s := e];
    }

    method FindStale(now: int) returns (stale: set<Key>)
      requires WellFormed(View())
      ensures stale == StaleKeys(config, View(), now)
    {
      var keys := sessions.Keys;
      stale := {};
      while keys != {}
        invariant keys <= sessions.Keys
        invariant stale == StaleKeys(config, View(), now) - keys
        decreases keys
      {
        var k :| k in keys;
        if !entries[sessions[k]].inUse && now - entries[sessions[k]].lastSeen > config.idleTimeout {
          stale := stale + {k};
        }
        keys := keys - {k};
      }
    }

    method EvictStale(now: int)
      requires WellFormed(View())
      modifies this`sessions, this`closes
      ensures View() == Evict(config, old(View()), now)
    {
      ghost var p := View();
      var stale := FindStale(now);
      ghost var all := stale;
      assert all - {} == all;
      while stale != {}
        invariant stale <= all
        invariant sessions == CloseKeys(p, all - stale).sessions
        invariant closes == CloseKeys(p, all - stale).closes
        decreases stale
      {
        var k :| k in stale;
        CloseOneMore(p, all, stale, k);
        CloseEntry(sessions[k]);
        sessions := sessions - {k};
        stale := stale - {k};
      }
    }

    method DropForReconnect(key: Key)
      requires WellFormed(View())
      modifies this`sessions, this`closes
      ensures View() == ReconnectDrop(old(View()), key)
    {
      ClosingKey(View(), key);
      if key in sessions {
        CloseEntry(sessions[key]);
        sessions := sessions - {key};
      }
    }

    method Close()
      requires WellFormed(View())
      modifies this`sessions, this`closes
      ensures View() == CloseAll(old(View()))
    {
      ghost var p := View();
      var keys := sessions.Keys;
      assert p.sessions.Keys - {} == p.sessions.Keys;
      while keys != {}
        invariant keys <= p.sessions.Keys
        invariant sessions == p.sessions && closes == CloseKeys(p, p.sessions.Keys - keys).closes
        decreases keys
      {
        var k :| k in keys;
        CloseOneMore(p, p.sessions.Keys, keys, k);
        CloseEntry(sessions[k]);
        keys := keys - {k};
      }
      sessions := map[];
    }
  }

  /** Closing one more of the keys that remain: the session log and the pool after it. */
  lemma CloseOneMore(p: Pool, all: set<Key>, rest: set<Key>, k: Key)
    requires WellFormed(p) && k in rest && rest <= all <= p.sessions.Keys
    ensures k in CloseKeys(p, all - rest).sessions && CloseKeys(p, all - rest).sessions[k] == p.sessions[k]
    ensures CloseKeys(p, all - (rest - {k})).sessions == CloseKeys(p, all - rest).sessions - {k}
    ensures CloseKeys(p, all - (rest - {k})).closes == CloseKeys(p, all - rest).closes + multiset{p.sessions[k]}
  {
    var gone, s := all - rest, p.sessions[k];
    assert all - (rest - {k}) == gone + {k};
    assert SidsOf(p, gone + {k}) == SidsOf(p, gone) + {s};
    assert s !in SidsOf(p, gone);
    assert multiset(SidsOf(p, gone) + {s}) == multiset(SidsOf(p, gone)) + multiset{s};
  }
}
