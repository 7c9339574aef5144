/** The host pools of the fleet orchestrator over whole runs (core/fleet/orchestrator.go). */
module FleetPool {
  import opened Wrappers

  datatype Host = Host(id: string, bornAt: int)

  /** Provider names may be of any type with equality. */
  datatype FleetError<Name> =
    | NoHosts(provider: Name)
    | AcquireFailed(provider: Name)
    | ReleaseFailed(provider: Name)
    | TeardownFailed(provider: Name)

  /** Nanoseconds. */
  const MINUTE := 60_000_000_000

  predicate IsExpired(h: Host, ttl: int, now: int) {
    now - h.bornAt >= ttl * MINUTE
  }

  function Expired(pool: seq<Host>, ttl: int, now: int): seq<Host> {
    if pool == [] then []
    else
      var n := |pool| - 1;
      Expired(pool[..n], ttl, now) + (if IsExpired(pool[n], ttl, now) then [pool[n]] else [])
  }

  function Remaining(pool: seq<Host>, ttl: int, now: int): seq<Host> {
    if pool == [] then []
    else
      var n := |pool| - 1;
      Remaining(pool[..n], ttl, now) + (if IsExpired(pool[n], ttl, now) then [] else [pool[n]])
  }

  /** The two halves are the whole pool. */
  lemma SplitKeepsHosts(pool: seq<Host>, ttl: int, now: int)
    ensures multiset(pool) == multiset(Expired(pool, ttl, now)) + multiset(Remaining(pool, ttl, now))
  {
    hide Expired;
    hide Remaining;
    forall h ensures multiset(pool)[h] == (multiset(Expired(pool, ttl, now)) + multiset(Remaining(pool, ttl, now)))[h] {
      AgeDecides(pool, ttl, now, h);
    }
  }

  lemma {:induction false} SplitByAge(pool: seq<Host>, ttl: int, now: int)
    ensures |pool| == |Expired(pool, ttl, now)| + |Remaining(pool, ttl, now)|
    ensures forall h :: h in Expired(pool, ttl, now) ==> IsExpired(h, ttl, now)
    ensures forall h :: h in Remaining(pool, ttl, now) ==> !IsExpired(h, ttl, now)
    ensures Expired(pool, ttl, now) == [] ==> Remaining(pool, ttl, now) == pool
    decreases pool
  {
    hide IsExpired;
    if pool != [] {
      var n := |pool| - 1;
      SplitByAge(pool[..n], ttl, now);
      assert pool == pool[..n] + [pool[n]];
    }
  }

  lemma NothingExpired(pool: seq<Host>, ttl: int, now: int)
    ensures Expired(pool, ttl, now) == [] ==> Remaining(pool, ttl, now) == pool
  {
    SplitByAge(pool, ttl, now);
  }

  method Split(pool: seq<Host>, ttl: int, now: int) returns (expired: seq<Host>, remaining: seq<Host>)
    ensures expired == Expired(pool, ttl, now) && remaining == Remaining(pool, ttl, now)
  {
    expired, remaining := [], [];
    for i := 0 to |pool|
      invariant expired == Expired(pool[..i], ttl, now) && remaining == Remaining(pool[..i], ttl, now)
    {
      assert pool[..i + 1][..i] == pool[..i];
      if now - pool[i].bornAt >= ttl * MINUTE {
        expired := expired + [pool[i]];
      } else {
        remaining := remaining + [pool[i]];
      }
    }
    assert pool[..|pool|] == pool;
  }

  type Pools<Name> = map<Name, seq<Host>>

  type Ledger<Name> = map<Name, multiset<Host>>

  /** A Go map read: the nil slice when there is no entry. */
  function Pool<Name(==)>(hosts: Pools<Name>, name: Name): seq<Host> {
    if name in hosts then hosts[name] else []
  }

  ghost function Entry<Name>(l: Ledger<Name>, name: Name): multiset<Host> {
    if name in l then l[name] else multiset{}
  }

  /** The ledger with `hosts` booked under `name`; booking nothing leaves it alone. */
  ghost function Booked<Name>(l: Ledger<Name>, name: Name, hosts: seq<Host>): Ledger<Name> {
    if hosts == [] then l else l[name := Entry(l, name) + multiset(hosts)]
  }

  lemma BookedEntry<Name(!new)>(l: Ledger<Name>, name: Name, hosts: seq<Host>)
    ensures Entry(Booked(l, name, hosts), name) == Entry(l, name) + multiset(hosts)
    ensures forall n :: n != name ==> Entry(Booked(l, name, hosts), n) == Entry(l, n)
  {
  }

  /** The hosts that `name` ever had are in its pool, were released, or were lost. */
  ghost predicate Balanced<Name>(ever: Ledger<Name>, hosts: Pools<Name>, released: Ledger<Name>, lost: Ledger<Name>,
                                 name: Name) {
    Entry(ever, name) == multiset(Pool(hosts, name)) + Entry(released, name) + Entry(lost, name)
  }

  /** One pool changes, and the ledgers book what came and went. */
  lemma Rebalance<Name(!new)>(
    ever: Ledger<Name>, hosts: Pools<Name>, released: Ledger<Name>, lost: Ledger<Name>, name: Name,
    added: seq<Host>, pool: seq<Host>, gone: seq<Host>, dropped: seq<Host>,
    ever': Ledger<Name>, hosts': Pools<Name>, released': Ledger<Name>, lost': Ledger<Name>)
    requires forall n :: Balanced(ever, hosts, released, lost, n)
    requires ever' == Booked(ever, name, added) && released' == Booked(released, name, gone)
    requires lost' == Booked(lost, name, dropped) && hosts' == hosts[name := pool]
    requires Exchange(Pool(hosts, name), added, pool, gone, dropped)
    ensures forall n :: Balanced(ever', hosts', released', lost', n)
  {
    forall n ensures Balanced(ever', hosts', released', lost', n) {
      if n == name {
        RebalanceHere(ever, hosts, released, lost, name, added, pool, gone, dropped);
      } else {
        RebalanceElsewhere(ever, hosts, released, lost, name, added, pool, gone, dropped, n);
      }
    }
  }

  lemma RebalanceHere<Name(!new)>(
    ever: Ledger<Name>, hosts: Pools<Name>, released: Ledger<Name>, lost: Ledger<Name>, name: Name,
    added: seq<Host>, pool: seq<Host>, gone: seq<Host>, dropped: seq<Host>)
    requires Balanced(ever, hosts, released, lost, name)
    requires Exchange(Pool(hosts, name), added, pool, gone, dropped)
    ensures Balanced(Booked(ever, name, added), hosts[name := pool], Booked(released, name, gone),
                     Booked(lost, name, dropped), name)
  {
    BookedEntry(ever, name, added);
    BookedEntry(released, name, gone);
    BookedEntry(lost, name, dropped);
    BalanceAlgebra(Entry(ever, name), multiset(Pool(hosts, name)), Entry(released, name), Entry(lost, name),
                   multiset(added), multiset(pool), multiset(gone), multiset(dropped));
    hide Booked;
    hide Entry;
    assert Pool(hosts[name := pool], name) == pool;
  }

  lemma RebalanceElsewhere<Name>(
    ever: Ledger<Name>, hosts: Pools<Name>, released: Ledger<Name>, lost: Ledger<Name>, name: Name,
    added: seq<Host>, pool: seq<Host>, gone: seq<Host>, dropped: seq<Host>, n: Name)
    requires Balanced(ever, hosts, released, lost, n) && n != name
    ensures Balanced(Booked(ever, name, added), hosts[name := pool], Booked(released, name, gone),
                     Booked(lost, name, dropped), n)
  {
    assert Entry(Booked(ever, name, added), n) == Entry(ever, n);
    assert Entry(Booked(released, name, gone), n) == Entry(released, n);
    assert Entry(Booked(lost, name, dropped), n) == Entry(lost, n);
    assert Pool(hosts[name := pool], n) == Pool(hosts, n);
  }

  /** A pool before and after: what it had and got is what it has, what was released and what was dropped. */
  ghost predicate Exchange(before: seq<Host>, added: seq<Host>, after: seq<Host>, gone: seq<Host>, dropped: seq<Host>) {
    multiset(before) + multiset(added) == multiset(after) + multiset(gone) + multiset(dropped)
  }

  lemma PlainExchanges(pool: seq<Host>, added: seq<Host>)
    ensures Exchange(pool, added, pool + added, [], [])
    ensures Exchange(pool, [], [], pool, [])
    ensures pool != [] ==> Exchange(pool, [], Rotate(pool), [], [])
  {
    if pool != [] {
      RotateKeepsHosts(pool);
    }
  }

  lemma SplitExchange(pool: seq<Host>, ttl: int, now: int, acquired: seq<Host>)
    ensures Exchange(pool, [], Remaining(pool, ttl, now), [], Expired(pool, ttl, now))
    ensures Exchange(pool, acquired, Remaining(pool, ttl, now) + acquired, Expired(pool, ttl, now), [])
  {
    hide Remaining;
    hide Expired;
    SplitKeepsHosts(pool, ttl, now);
  }

  lemma BalanceAlgebra<T(!new)>(
    ever: multiset<T>, pool: multiset<T>, released: multiset<T>, lost: multiset<T>,
    added: multiset<T>, pool': multiset<T>, gone: multiset<T>, dropped: multiset<T>)
    requires ever == pool + released + lost
    requires pool + added == pool' + gone + dropped
    ensures ever + added == pool' + (released + gone) + (lost + dropped)
  {
    forall x ensures (ever + added)[x] == (pool' + (released + gone) + (lost + dropped))[x] {
      assert (pool + added)[x] == (pool' + gone + dropped)[x];
    }
  }

  lemma ForallSplitExchange(pool: seq<Host>, ttl: int, now: int)
    ensures Exchange(pool, [], Remaining(pool, ttl, now), [], Expired(pool, ttl, now))
    ensures forall acquired ::
              Exchange(pool, acquired, Remaining(pool, ttl, now) + acquired, Expired(pool, ttl, now), [])
  {
    SplitExchange(pool, ttl, now, []);
    forall acquired
      ensures Exchange(pool, acquired, Remaining(pool, ttl, now) + acquired, Expired(pool, ttl, now), [])
    {
      SplitExchange(pool, ttl, now, acquired);
    }
  }

  lemma BookNothing<Name>(l: Ledger<Name>, name: Name)
    ensures Booked(l, name, []) == l
  {
  }

  lemma BookedChanges<Name(!new)>(l: Ledger<Name>, name: Name, hosts: seq<Host>)
    requires hosts != []
    ensures Booked(l, name, hosts) != l
  {
    assert hosts[0] in multiset(hosts);
    assert Entry(Booked(l, name, hosts), name)[hosts[0]] > Entry(l, name)[hosts[0]];
  }

  lemma SamePool<Name(!new)>(
    ever: Ledger<Name>, hosts: Pools<Name>, released: Ledger<Name>, lost: Ledger<Name>, name: Name)
    requires forall n :: Balanced(ever, hosts, released, lost, n)
    ensures var hosts' := hosts[name := Pool(hosts, name)];
            forall n :: Balanced(ever, hosts', released, lost, n) && Pool(hosts', n) == Pool(hosts, n)
  {
    var hosts' := hosts[name := Pool(hosts, name)];
    forall n ensures Balanced(ever, hosts', released, lost, n) && Pool(hosts', n) == Pool(hosts, n) {
      assert Balanced(ever, hosts, released, lost, n);
    }
  }

  /** What CheckTTL leaves in one pool when Acquire answers `acquired`. */
  function Recycled(pool: seq<Host>, ttl: int, now: int, acquired: seq<Host>): seq<Host> {
    if ttl <= 0 || Expired(pool, ttl, now) == [] then pool else Remaining(pool, ttl, now) + acquired
  }

  class Orchestrator<Name(==,!new)> {
    var providers: set<Name>
    var ttls: map<Name, int>
    var hosts: Pools<Name>

    /** Per provider: hosts ever added or acquired, hosts passed to Release, hosts dropped without Release. */
    ghost var ever: Ledger<Name>
    ghost var released: Ledger<Name>
    ghost var lost: Ledger<Name>

    ghost predicate Valid()
      reads this
    {
      forall name :: Balanced(ever, hosts, released, lost, name)
    }

    constructor (providers: set<Name>, ttls: map<Name, int>)
      ensures Valid() && this.providers == providers && this.ttls == ttls
      ensures hosts == map[] && ever == map[] && released == map[] && lost == map[]
    {
      this.providers, this.ttls := providers, ttls;
      hosts, ever, released, lost := map[], map[], map[], map[];
    }

    method SelectHost(name: Name) returns (r: Result<Host, FleetError<Name>>)
      requires Valid()
      modifies this`hosts
      ensures Valid()
      ensures Pool(old(hosts), name) == [] ==> r == Err(NoHosts(name)) && hosts == old(hosts)
      ensures Pool(old(hosts), name) != [] ==>
                && r == Ok(Pool(old(hosts), name)[0])
                && hosts == old(hosts)[name := Rotate(Pool(old(hosts), name))]
    {
      var pool := Pool(hosts, name);
      if |pool| == 0 {
        return Err(NoHosts(name));
      }
      var host := pool[0];
      RotateKeepsHosts(pool);
      ghost var before := hosts;
      hosts := hosts[name := pool[1..] + [host]];
      PlainExchanges(pool, []);
      Rebalance(ever, before, released, lost, name, [], Rotate(pool), [], [], ever, hosts, released, lost);
      return Ok(host);
    }

    method AddHosts(name: Name, added: seq<Host>)
      requires Valid()
      modifies this`hosts, this`ever
      ensures Valid()
      ensures hosts == old(hosts)[name := Pool(old(hosts), name) + added]
      ensures ever == Booked(old(ever), name, added)
    {
      ghost var pool := Pool(hosts, name) + added;
      ghost var hosts0, ever0 := hosts, ever;
      hosts := hosts[name := Pool(hosts, name) + added];
      ever := Booked(ever, name, added);
      PlainExchanges(Pool(hosts0, name), added);
      Rebalance(ever0, hosts0, released, lost, name, added, pool, [], [], ever, hosts, released, lost);
    }

    /** A missing entry reads as zero, which means no limit. */
    function Ttl(name: Name): int
      reads this`ttls
    {
      if name in ttls then ttls[name] else 0
    }

    /** The hosts of a pool that are due for replacement. */
    function ExpiredNow(name: Name, pool: seq<Host>, now: int): seq<Host>
      reads this`ttls
    {
      if Ttl(name) <= 0 then [] else Expired(pool, Ttl(name), now)
    }

    /** A provider with a limit has due exactly the hosts whose age in nanoseconds has reached it. */
    lemma DueByAge(name: Name, pool: seq<Host>, now: int, h: Host)
      ensures h in ExpiredNow(name, pool, now) <==>
              h in pool && Ttl(name) > 0 && now - h.bornAt >= Ttl(name) * 60_000_000_000
    {
      AgeDecides(pool, Ttl(name), now, h);
      assert h in pool <==> h in multiset(pool);
      assert h in Expired(pool, Ttl(name), now) <==> h in multiset(Expired(pool, Ttl(name), now));
    }

    /** What one pool becomes, unless Acquire fails. */
    function RecycledPool(name: Name, pool: seq<Host>, now: int, acquire: (Name, nat) -> Option<seq<Host>>)
      : Option<seq<Host>>
      reads this`ttls
    {
      var expired := ExpiredNow(name, pool, now);
      if expired == [] then Some(pool)
      else
        match acquire(name, |expired|)
        case None => None
        case Some(acquired) => Some(Recycled(pool, Ttl(name), now, acquired))
    }

    /** Some hosts of the pool are due, and the provider has no replacements for them. */
    predicate AcquireFails(name: Name, pool: seq<Host>, now: int, acquire: (Name, nat) -> Option<seq<Host>>)
      reads this`ttls
    {
      var expired := ExpiredNow(name, pool, now);
      expired != [] && acquire(name, |expired|).None?
    }

    /** No host of the pool is due, or they are replaced and released. */
    predicate Succeeds(name: Name, pool: seq<Host>, now: int, acquire: (Name, nat) -> Option<seq<Host>>,
                       releaseFails: set<Name>)
      reads this`ttls
    {
      ExpiredNow(name, pool, now) == [] || (!AcquireFails(name, pool, now, acquire) && name !in releaseFails)
    }

    /** One provider's turn in CheckTTL. `acquire` and `releaseFails` stand for the provider. */
    method Recycle(name: Name, now: int, acquire: (Name, nat) -> Option<seq<Host>>, releaseFails: set<Name>)
      returns (r: Result<(), FleetError<Name>>)
      requires Valid()
      modifies this`hosts, this`ever, this`released, this`lost
      ensures Valid()
      ensures forall other :: other != name ==> Pool(hosts, other) == Pool(old(hosts), other)
      ensures r == Err(AcquireFailed(name)) <==> AcquireFails(name, Pool(old(hosts), name), now, acquire)
      ensures r.Ok? <==> Succeeds(name, Pool(old(hosts), name), now, acquire, releaseFails)
      ensures r.Err? ==> r.error == AcquireFailed(name) || r.error == ReleaseFailed(name)
      ensures AcquireFails(name, Pool(old(hosts), name), now, acquire) ==>
                && ever == old(ever) && released == old(released)
                && lost == Booked(old(lost), name, ExpiredNow(name, Pool(old(hosts), name), now))
                && Pool(hosts, name) == Remaining(Pool(old(hosts), name), Ttl(name), now)
      ensures !AcquireFails(name, Pool(old(hosts), name), now, acquire) ==>
                && lost == old(lost)
                && RecycledPool(name, Pool(old(hosts), name), now, acquire) == Some(Pool(hosts, name))
                && released == Booked(old(released), name, ExpiredNow(name, Pool(old(hosts), name), now))
    {
      hide Balanced;
      hide Exchange;
      hide Booked;
      hide Entry;
      hide Expired;
      hide Remaining;
      BookNothing(released, name);
      var ttl := Ttl(name);
      if ttl <= 0 {
        return Ok(());
      }
      var pool := Pool(hosts, name);
      ghost var hosts0 := hosts;
      var expired, remaining := Split(pool, ttl, now);
      NothingExpired(pool, ttl, now);
      hosts := hosts[name := remaining];
      if |expired| == 0 {
        SamePool(ever, hosts0, released, lost, name);
        return Ok(());
      }
      ForallSplitExchange(pool, ttl, now);
      r := ReplaceExpired(name, hosts0, remaining, expired, acquire, releaseFails);
    }

    /** Acquires replacements before releasing the expired hosts, which are out of the pool already. */
    method ReplaceExpired(name: Name, ghost hosts0: Pools<Name>, remaining: seq<Host>, expired: seq<Host>,
                          acquire: (Name, nat) -> Option<seq<Host>>, releaseFails: set<Name>)
      returns (r: Result<(), FleetError<Name>>)
      requires forall n :: Balanced(ever, hosts0, released, lost, n)
      requires hosts == hosts0[name := remaining]
      requires Exchange(Pool(hosts0, name), [], remaining, [], expired)
      requires forall acquired :: Exchange(Pool(hosts0, name), acquired, remaining + acquired, expired, [])
      modifies this`hosts, this`ever, this`released, this`lost
      ensures Valid()
      ensures acquire(name, |expired|).None? ==>
                && r == Err(AcquireFailed(name)) && hosts == old(hosts)
                && ever == old(ever) && released == old(released) && lost == Booked(old(lost), name, expired)
      ensures acquire(name, |expired|).Some? ==>
                && r == (if name in releaseFails then Err(ReleaseFailed(name)) else Ok(()))
                && hosts == hosts0[name := remaining + acquire(name, |expired|).value]
                && lost == old(lost) && released == Booked(old(released), name, expired)
    {
      hide Balanced;
      hide Exchange;
      hide Booked;
      var replacements := acquire(name, |expired|);
      if replacements.None? {
        Lose(name, hosts0, remaining, expired);
        return Err(AcquireFailed(name));
      }
      Settle(name, hosts0, remaining, expired, replacements.value);
      if name in releaseFails {
        return Err(ReleaseFailed(name));
      }
      return Ok(());
    }

    /** The expired hosts have left the pool and nobody releases them. */
    ghost method Lose(name: Name, hosts0: Pools<Name>, remaining: seq<Host>, expired: seq<Host>)
      requires forall n :: Balanced(ever, hosts0, released, lost, n)
      requires hosts == hosts0[name := remaining]
      requires Exchange(Pool(hosts0, name), [], remaining, [], expired)
      modifies this`lost
      ensures Valid()
      ensures lost == Booked(old(lost), name, expired)
    {
      BookNothing(ever, name);
      BookNothing(released, name);
      lost := Booked(lost, name, expired);
      Rebalance(ever, hosts0, released, old(lost), name, [], remaining, [], expired, ever, hosts, released, lost);
    }

    /** The replacements join the remaining hosts, and the expired ones go to Release. `hosts0` are the
        pools before the expired hosts were taken out. */
    method Settle(name: Name, ghost hosts0: Pools<Name>, remaining: seq<Host>, expired: seq<Host>, acquired: seq<Host>)
      requires forall n :: Balanced(ever, hosts0, released, lost, n)
      requires hosts == hosts0[name := remaining]
      requires Exchange(Pool(hosts0, name), acquired, remaining + acquired, expired, [])
      modifies this`hosts, this`ever, this`released
      ensures Valid()
      ensures hosts == hosts0[name := remaining + acquired]
      ensures released == Booked(old(released), name, expired)
      ensures ever == Booked(old(ever), name, acquired)
    {
      hide Balanced;
      hide Exchange;
      hide Booked;
      ghost var ever0, released0 := ever, released;
      hosts := hosts[name := Pool(hosts, name) + acquired];
      ever := Booked(ever, name, acquired);
      released := Booked(released, name, expired);
      BookNothing(lost, name);
      Rebalance(ever0, hosts0, released0, lost, name, acquired, remaining + acquired, expired, [],
                ever, hosts, released, lost);
    }

    /** Every provider that needs replacements has them. */
    ghost predicate NobodyFails(pools: Pools<Name>, now: int, acquire: (Name, nat) -> Option<seq<Host>>)
      reads this`ttls, this`providers
    {
      forall name :: name in providers ==> !AcquireFails(name, Pool(pools, name), now, acquire)
    }

    /** All providers in an arbitrary order, until one fails. Hosts are lost exactly when a provider cannot
        replace them; if no release fails, that is decided before the call. */
    method CheckTTL(now: int, acquire: (Name, nat) -> Option<seq<Host>>, releaseFails: set<Name>)
      returns (r: Result<(), FleetError<Name>>)
      requires Valid()
      modifies this`hosts, this`ever, this`released, this`lost
      ensures Valid()
      ensures forall name :: name !in providers ==> Pool(hosts, name) == Pool(old(hosts), name)
      ensures r.Ok? <==>
              forall name :: name in providers ==> Succeeds(name, Pool(old(hosts), name), now, acquire, releaseFails)
      ensures r.Ok? ==>
                forall name :: name in providers ==>
                  RecycledPool(name, Pool(old(hosts), name), now, acquire) == Some(Pool(hosts, name))
      ensures r.Ok? ==>
                forall name, h :: name in providers && h in Pool(old(hosts), name) && !(h in Pool(hosts, name)) ==>
                  Ttl(name) > 0 && now - h.bornAt >= Ttl(name) * 60_000_000_000
      ensures r.Ok? && GivesWhatIsAsked(acquire) ==>
                forall name :: name in providers ==> |Pool(hosts, name)| == |Pool(old(hosts), name)|
      ensures r.Err? && r.error.AcquireFailed? ==>
                var name := r.error.provider;
                && name in providers && AcquireFails(name, Pool(old(hosts), name), now, acquire)
                && lost == Booked(old(lost), name, ExpiredNow(name, Pool(old(hosts), name), now))
                && lost != old(lost)
      ensures !(r.Err? && r.error.AcquireFailed?) ==> lost == old(lost)
      ensures NobodyFails(old(hosts), now, acquire) ==> lost == old(lost)
      ensures providers !! releaseFails ==> (lost == old(lost) <==> NobodyFails(old(hosts), now, acquire))
    {
      hide Balanced;
      hide Booked;
      hide Pool;
      var todo := providers;
      while todo != {}
        invariant todo <= providers && Valid() && lost == old(lost)
        invariant forall name :: name !in providers || name in todo ==> Pool(hosts, name) == Pool(old(hosts), name)
        invariant forall name :: name in providers - todo ==>
                    && RecycledPool(name, Pool(old(hosts), name), now, acquire) == Some(Pool(hosts, name))
                    && Succeeds(name, Pool(old(hosts), name), now, acquire, releaseFails)
        decreases |todo|
      {
        var name :| name in todo;
        r := Recycle(name, now, acquire, releaseFails);
        if r.Err? {
          if r.error.AcquireFailed? {
            BookedChanges(old(lost), name, ExpiredNow(name, Pool(old(hosts), name), now));
          }
          return;
        }
        todo := todo - {name};
      }
      forall name, h | name in providers && h in Pool(old(hosts), name) && !(h in Pool(hosts, name))
        ensures Ttl(name) > 0 && now - h.bornAt >= Ttl(name) * 60_000_000_000
      {
        OnlyOldLeave(name, Pool(old(hosts), name), now, acquire, h);
      }
      if GivesWhatIsAsked(acquire) {
        forall name | name in providers ensures |Pool(hosts, name)| == |Pool(old(hosts), name)| {
          SizeStays(name, Pool(old(hosts), name), now, acquire);
        }
      }
      return Ok(());
    }

    /** `Acquire` returns as many hosts as it is asked for. */
    ghost predicate GivesWhatIsAsked(acquire: (Name, nat) -> Option<seq<Host>>) {
      forall name, n :: acquire(name, n).Some? ==> |acquire(name, n).value| == n
    }

    lemma SizeStays(name: Name, pool: seq<Host>, now: int, acquire: (Name, nat) -> Option<seq<Host>>)
      requires RecycledPool(name, pool, now, acquire).Some? && GivesWhatIsAsked(acquire)
      ensures |RecycledPool(name, pool, now, acquire).value| == |pool|
    {
      hide Expired;
      hide Remaining;
      SplitByAge(pool, Ttl(name), now);
    }

    /** A host that a recycled pool has lost had reached the limit. */
    lemma OnlyOldLeave(name: Name, pool: seq<Host>, now: int, acquire: (Name, nat) -> Option<seq<Host>>, h: Host)
      requires RecycledPool(name, pool, now, acquire).Some?
      requires h in pool && h !in RecycledPool(name, pool, now, acquire).value
      ensures Ttl(name) > 0 && now - h.bornAt >= Ttl(name) * 60_000_000_000
    {
      hide Expired;
      hide Remaining;
      AgeDecides(pool, Ttl(name), now, h);
      assert h in multiset(pool);
      assert h in Remaining(pool, Ttl(name), now) <==> h in multiset(Remaining(pool, Ttl(name), now));
    }

    /** One provider's pool is taken out and passed to Release. */
    method Drain(name: Name) returns (pool: seq<Host>)
      requires Valid()
      modifies this`hosts, this`released
      ensures Valid() && pool == Pool(old(hosts), name)
      ensures forall n :: Pool(hosts, n) == if n == name then [] else Pool(old(hosts), n)
      ensures Entry(released, name) == Entry(old(released), name) + multiset(pool)
      ensures forall n :: n != name ==> Entry(released, n) == Entry(old(released), n)
    {
      hide Balanced;
      hide Exchange;
      hide Entry;
      hide Booked;
      pool := Pool(hosts, name);
      ghost var hosts0, released0 := hosts, released;
      BookNothing(ever, name);
      BookNothing(lost, name);
      hosts := hosts[name := []];
      released := Booked(released, name, pool);
      PlainExchanges(pool, []);
      Rebalance(ever, hosts0, released0, lost, name, [], [], pool, [], ever, hosts, released, lost);
      BookedEntry(released0, name, pool);
    }

    /** Every provider's pool is emptied and handed to Release, whether or not that works. */
    method Teardown(releaseFails: set<Name>, teardownFails: set<Name>) returns (firstErr: Option<FleetError<Name>>)
      requires Valid()
      modifies this`hosts, this`released
      ensures Valid()
      ensures forall name :: name in providers ==>
                && Pool(hosts, name) == []
                && Entry(released, name) == Entry(old(released), name) + multiset(Pool(old(hosts), name))
      ensures forall name :: name !in providers ==> Pool(hosts, name) == Pool(old(hosts), name)
      ensures firstErr.None? <==>
              && providers !! teardownFails
              && forall name :: name in providers * releaseFails ==> Pool(old(hosts), name) == []
    {
      hide Balanced;
      hide Entry;
      hide Pool;
      firstErr := None;
      var todo := providers;
      while todo != {}
        invariant todo <= providers && Valid()
        invariant forall name :: name in providers - todo ==>
                    && Pool(hosts, name) == []
                    && Entry(released, name) == Entry(old(released), name) + multiset(Pool(old(hosts), name))
        invariant forall name :: name !in providers - todo ==>
                    && Pool(hosts, name) == Pool(old(hosts), name)
                    && Entry(released, name) == Entry(old(released), name)
        invariant firstErr.None? <==>
                  && (providers - todo) !! teardownFails
                  && forall name :: name in (providers - todo) * releaseFails ==> Pool(old(hosts), name) == []
        decreases |todo|
      {
        var name :| name in todo;
        var pool := Drain(name);
        if |pool| > 0 && name in releaseFails && firstErr.None? {
          firstErr := Some(ReleaseFailed(name));
        }
        if name in teardownFails && firstErr.None? {
          firstErr := Some(TeardownFailed(name));
        }
        todo := todo - {name};
      }
    }
  }

  // ---- What the pools keep ----------------------------------------------

  /** A successful round keeps the size of a pool, drops exactly the hosts whose age in nanoseconds has reached the
      limit in minutes, and keeps the others. */
  lemma RecyclingKeepsSize(pool: seq<Host>, ttl: int, now: int, acquired: seq<Host>)
    requires ttl > 0 && |acquired| == |Expired(pool, ttl, now)|
    ensures |Recycled(pool, ttl, now, acquired)| == |pool|
    ensures multiset(Recycled(pool, ttl, now, acquired)) + multiset(Expired(pool, ttl, now)) ==
            multiset(pool) + multiset(acquired)
    ensures forall h :: multiset(Recycled(pool, ttl, now, acquired))[h] ==
                        multiset(acquired)[h] + if now - h.bornAt < ttl * 60_000_000_000 then multiset(pool)[h] else 0
  {
    hide Expired;
    hide Remaining;
    SplitKeepsHosts(pool, ttl, now);
    SplitByAge(pool, ttl, now);
    forall h
      ensures multiset(Recycled(pool, ttl, now, acquired))[h] ==
              multiset(acquired)[h] + if now - h.bornAt < ttl * 60_000_000_000 then multiset(pool)[h] else 0
    {
      AgeDecides(pool, ttl, now, h);
    }
  }

  /** Each host of a pool goes one way, as often as it is in there: out at the age of `ttl` minutes, not before. */
  lemma {:induction false} AgeDecides(pool: seq<Host>, ttl: int, now: int, h: Host)
    ensures multiset(Expired(pool, ttl, now))[h] ==
            if now - h.bornAt >= ttl * 60_000_000_000 then multiset(pool)[h] else 0
    ensures multiset(Remaining(pool, ttl, now))[h] ==
            if now - h.bornAt < ttl * 60_000_000_000 then multiset(pool)[h] else 0
    decreases pool
  {
    hide IsExpired;
    if pool != [] {
      var n := |pool| - 1;
      AgeDecides(pool[..n], ttl, now, h);
      OneMore(pool, ttl, now);
      AgeLimit(pool[n], ttl, now);
    }
    hide Expired;
    hide Remaining;
  }

  lemma AgeLimit(h: Host, ttl: int, now: int)
    ensures IsExpired(h, ttl, now) <==> now - h.bornAt >= ttl * 60_000_000_000
  {
  }

  lemma OneMore(pool: seq<Host>, ttl: int, now: int)
    requires pool != []
    ensures var n := |pool| - 1;
            var one, none := multiset{pool[n]}, multiset{};
            && multiset(pool) == multiset(pool[..n]) + one
            && multiset(Expired(pool, ttl, now)) ==
               multiset(Expired(pool[..n], ttl, now)) + (if IsExpired(pool[n], ttl, now) then one else none)
            && multiset(Remaining(pool, ttl, now)) ==
               multiset(Remaining(pool[..n], ttl, now)) + (if IsExpired(pool[n], ttl, now) then none else one)
  {
    hide IsExpired;
    assert pool == pool[..|pool| - 1] + [pool[|pool| - 1]];
  }

  /** Neither half changes the order of its hosts. */
  lemma {:induction false} SplitKeepsOrder(a: seq<Host>, b: seq<Host>, ttl: int, now: int)
    ensures Expired(a + b, ttl, now) == Expired(a, ttl, now) + Expired(b, ttl, now)
    ensures Remaining(a + b, ttl, now) == Remaining(a, ttl, now) + Remaining(b, ttl, now)
    decreases b
  {
    if b == [] {
      assert a + b == a;
      assert Expired(a, ttl, now) + [] == Expired(a, ttl, now) && Remaining(a, ttl, now) + [] == Remaining(a, ttl, now);
    } else {
      hide IsExpired;
      var n := |b| - 1;
      SplitKeepsOrder(a, b[..n], ttl, now);
      assert (a + b)[..|a| + n] == a + b[..n];
      var one, none := [b[n]], [];
      var e, r := if IsExpired(b[n], ttl, now) then one else none, if IsExpired(b[n], ttl, now) then none else one;
      Regroup(Expired(a, ttl, now), Expired(b[..n], ttl, now), e);
      Regroup(Remaining(a, ttl, now), Remaining(b[..n], ttl, now), r);
    }
  }

  lemma Regroup(a: seq<Host>, b: seq<Host>, c: seq<Host>)
    ensures (a + b) + c == a + (b + c)
  {
  }

  // ---- Round robin ------------------------------------------------------

  function Rotate(pool: seq<Host>): seq<Host>
    requires pool != []
  {
    pool[1..] + [pool[0]]
  }

  lemma RotateKeepsHosts(pool: seq<Host>)
    requires pool != []
    ensures multiset(Rotate(pool)) == multiset(pool)
  {
    assert pool == [pool[0]] + pool[1..];
  }

  /** The pool after `k` selections. */
  function Rotated(pool: seq<Host>, k: nat): (r: seq<Host>)
    requires pool != []
    ensures |r| == |pool|
  {
    if k == 0 then pool else Rotate(Rotated(pool, k - 1))
  }

  /** The hosts that `k` selections return. */
  function Selected(pool: seq<Host>, k: nat): seq<Host>
    requires pool != []
  {
    if k == 0 then [] else Selected(pool, k - 1) + [Rotated(pool, k - 1)[0]]
  }

  lemma {:induction false} RotatedIs(pool: seq<Host>, k: nat)
    requires pool != [] && k <= |pool|
    ensures Rotated(pool, k) == pool[k..] + pool[..k]
    ensures Selected(pool, k) == pool[..k]
  {
    if k == 0 {
      assert pool[0..] + pool[..0] == pool;
    } else {
      RotatedIs(pool, k - 1);
      assert pool[k - 1..][1..] == pool[k..];
      assert pool[..k] == pool[..k - 1] + [pool[k - 1]];
    }
  }

  /** As many selections as there are hosts return each host once, in order, and restore the pool. */
  lemma {:induction false} FullRoundRestores(pool: seq<Host>)
    requires pool != []
    ensures Selected(pool, |pool|) == pool && Rotated(pool, |pool|) == pool
  {
    RotatedIs(pool, |pool|);
    assert pool[..|pool|] == pool && pool[|pool|..] == [];
  }
}
