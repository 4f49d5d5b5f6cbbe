/** Execution leases that expire, one holder for a resource. */
module Leases {
  import opened DiffText

  datatype Lease = Lease(id: string, resource: string, owner: string, expiresAt: real)

  /** What happened to the store, with the time its file was read at. */
  datatype Event = Granted(lease: Lease, at: real) | Released(id: string, at: real)

  /** `_load`: the leases that have not expired. */
  function Unexpired(s: seq<Lease>, now: real): seq<Lease> {
    if s == [] then []
    else if s[0].expiresAt > now then [s[0]] + Unexpired(s[1..], now)
    else Unexpired(s[1..], now)
  }

  function Without(s: seq<Lease>, id: string): seq<Lease> {
    if s == [] then []
    else if s[0].id != id then [s[0]] + Without(s[1..], id)
    else Without(s[1..], id)
  }

  /** The leases a history granted and did not release, oldest first. */
  function Held(log: seq<Event>): seq<Lease> {
    if log == [] then []
    else
      var before := Held(log[..|log| - 1]);
      match log[|log| - 1]
      case Granted(lease, _) => before + [lease]
      case Released(id, _) => Without(before, id)
  }

  predicate Holds(s: seq<Lease>, resource: string) {
    exists i :: 0 <= i < |s| && s[i].resource == resource
  }

  predicate HoldsId(s: seq<Lease>, id: string) {
    exists i :: 0 <= i < |s| && s[i].id == id
  }

  predicate Separate(s: seq<Lease>) {
    forall i, j | 0 <= i < j < |s| :: s[i].resource != s[j].resource
  }

  /** Every grant was of a resource nobody held then, with room for one more; time went on. */
  predicate Lawful(log: seq<Event>, maxActive: nat) {
    if log == [] then true
    else
      var before, last := log[..|log| - 1], log[|log| - 1];
      && Lawful(before, maxActive)
      && (before != [] ==> before[|before| - 1].at <= last.at)
      && (last.Granted? ==>
            var held := Unexpired(Held(before), last.at);
            !Holds(held, last.lease.resource) && |held| < maxActive && last.at < last.lease.expiresAt)
  }

  // -------------------------------------------------------------- lists of leases

  lemma {:induction false} UnexpiredConcat(a: seq<Lease>, b: seq<Lease>, now: real)
    ensures Unexpired(a + b, now) == Unexpired(a, now) + Unexpired(b, now)
  {
    if a == [] {
      assert a + b == b;
    } else {
      assert (a + b)[1..] == a[1..] + b;
      UnexpiredConcat(a[1..], b, now);
    }
  }

  lemma {:induction false} UnexpiredLater(s: seq<Lease>, now: real, later: real)
    requires now <= later
    ensures Unexpired(Unexpired(s, now), later) == Unexpired(s, later)
  {
    if s != [] {
      UnexpiredLater(s[1..], now, later);
      if s[0].expiresAt > now {
        assert ([s[0]] + Unexpired(s[1..], now))[1..] == Unexpired(s[1..], now);
      }
    }
  }

  lemma {:induction false} UnexpiredMembers(s: seq<Lease>, now: real)
    ensures forall l :: l in Unexpired(s, now) <==> l in s && l.expiresAt > now
    ensures |Unexpired(s, now)| <= |s|
  {
    if s != [] {
      UnexpiredMembers(s[1..], now);
      assert forall l :: l in s <==> l == s[0] || l in s[1..];
    }
  }

  lemma SeparateFirst(l: Lease, s: seq<Lease>)
    requires Separate(s) && forall x | x in s :: x.resource != l.resource
    ensures Separate([l] + s)
  {
  }

  lemma SeparateRest(s: seq<Lease>)
    requires s != [] && Separate(s)
    ensures Separate(s[1..]) && forall x | x in s[1..] :: x.resource != s[0].resource
  {
  }

  lemma {:induction false} UnexpiredSeparate(s: seq<Lease>, now: real)
    requires Separate(s)
    ensures Separate(Unexpired(s, now))
  {
    hide Separate;
    if s != [] {
      SeparateRest(s);
      UnexpiredSeparate(s[1..], now);
      UnexpiredMembers(s[1..], now);
      SeparateFirst(s[0], Unexpired(s[1..], now));
    } else {
      NothingHeld(now);
    }
  }

  lemma NobodyHolds(id: string)
    ensures !HoldsId([], id)
  {
  }

  lemma HoldsIdFirst(s: seq<Lease>, id: string)
    requires s != []
    ensures HoldsId(s, id) <==> s[0].id == id || HoldsId(s[1..], id)
    ensures forall l :: l in s <==> l == s[0] || l in s[1..]
  {
  }

  lemma {:induction false} WithoutMembers(s: seq<Lease>, id: string)
    ensures forall l :: l in Without(s, id) <==> l in s && l.id != id
    ensures |Without(s, id)| <= |s|
    ensures !HoldsId(s, id) ==> Without(s, id) == s
    ensures HoldsId(s, id) ==> |Without(s, id)| < |s|
  {
    hide HoldsId;
    if s != [] {
      WithoutMembers(s[1..], id);
      HoldsIdFirst(s, id);
      assert s == [s[0]] + s[1..];
    } else {
      NobodyHolds(id);
    }
  }

  lemma {:induction false} WithoutSeparate(s: seq<Lease>, id: string)
    requires Separate(s)
    ensures Separate(Without(s, id))
  {
    hide Separate;
    if s != [] {
      SeparateRest(s);
      WithoutSeparate(s[1..], id);
      WithoutMembers(s[1..], id);
      SeparateFirst(s[0], Without(s[1..], id));
    }
  }

  lemma {:induction false} WithoutUnexpired(s: seq<Lease>, id: string, now: real)
    ensures Unexpired(Without(s, id), now) == Without(Unexpired(s, now), id)
  {
    if s != [] {
      WithoutUnexpired(s[1..], id, now);
      if s[0].expiresAt > now {
        assert ([s[0]] + Unexpired(s[1..], now))[1..] == Unexpired(s[1..], now);
      }
      if s[0].id != id {
        assert ([s[0]] + Without(s[1..], id))[1..] == Without(s[1..], id);
      }
    }
  }

  lemma SeparateMore(s: seq<Lease>, l: Lease)
    requires Separate(s) && !Holds(s, l.resource)
    ensures Separate(s + [l])
  {
  }

  // ---------------------------------------------------------------- every history

  function Last(log: seq<Event>, start: real): real {
    if log == [] then start else log[|log| - 1].at
  }

  /** At every moment the leases in force name different resources and are at most
      `maxActive`. */
  lemma {:induction false} HeldBounded(log: seq<Event>, maxActive: nat, now: real)
    requires Lawful(log, maxActive) && Last(log, now) <= now
    ensures Separate(Unexpired(Held(log), now))
    ensures |Unexpired(Held(log), now)| <= maxActive
  {
    hide Separate, Without, Unexpired, Holds;
    if log == [] {
      NothingHeld(now);
    } else {
      var before, last := log[..|log| - 1], log[|log| - 1];
      var held := Unexpired(Held(before), last.at);
      HeldBounded(before, maxActive, last.at);
      match last {
        case Granted(lease, _) =>
          SeparateMore(held, lease);
          UnexpiredConcat(Held(before), [lease], last.at);
          OneUnexpired(lease, last.at);
          Later(Held(log), last.at, now);
        case Released(id, _) =>
          WithoutUnexpired(Held(before), id, last.at);
          WithoutSeparate(held, id);
          WithoutMembers(held, id);
          Later(Held(log), last.at, now);
      }
    }
  }

  lemma NothingHeld(now: real)
    ensures Separate(Unexpired([], now)) && Unexpired([], now) == []
  {
  }

  lemma OneUnexpired(l: Lease, now: real)
    ensures Unexpired([l], now) == if l.expiresAt > now then [l] else []
  {
    assert [l][1..] == [];
  }

  lemma Later(s: seq<Lease>, now: real, later: real)
    requires now <= later && Separate(Unexpired(s, now))
    ensures Separate(Unexpired(s, later)) && |Unexpired(s, later)| <= |Unexpired(s, now)|
  {
    hide Separate, Unexpired;
    UnexpiredLater(s, now, later);
    UnexpiredSeparate(Unexpired(s, now), later);
    UnexpiredMembers(Unexpired(s, now), later);
  }

  predicate ReleasedBetween(log: seq<Event>, id: string, i: nat, j: nat)
    requires j <= |log|
  {
    exists k :: i < k < j && log[k].Released? && log[k].id == id
  }

  /** A lease granted stays held until its release. */
  lemma {:induction false} HeldUntilReleased(log: seq<Event>, i: nat, j: nat)
    requires i < j <= |log| && log[i].Granted?
    requires !ReleasedBetween(log, log[i].lease.id, i, j)
    ensures log[i].lease in Held(log[..j])
  {
    hide Without;
    var before, last := log[..j - 1], log[j - 1];
    assert log[..j][..j - 1] == before;
    if i < j - 1 {
      HeldUntilReleased(log, i, j - 1);
      if last.Released? { WithoutMembers(Held(before), last.id); }
    }
  }

  lemma {:induction false} LawfulPrefix(log: seq<Event>, maxActive: nat, j: nat)
    requires Lawful(log, maxActive) && j <= |log|
    ensures Lawful(log[..j], maxActive)
  {
    hide Holds, Unexpired, Held;
    if j == |log| {
      assert log[..j] == log;
    } else {
      LawfulPrefix(log[..|log| - 1], maxActive, j);
      assert log[..|log| - 1][..j] == log[..j];
    }
  }

  /** A resource is not granted again until its lease is released or has expired. */
  lemma NotGrantedTwice(log: seq<Event>, maxActive: nat, i: nat, j: nat)
    requires Lawful(log, maxActive) && i < j < |log|
    requires log[i].Granted? && log[j].Granted? && log[i].lease.resource == log[j].lease.resource
    ensures log[j].at >= log[i].lease.expiresAt || ReleasedBetween(log, log[i].lease.id, i, j)
  {
    hide Held, Unexpired, ReleasedBetween;
    LawfulPrefix(log, maxActive, j + 1);
    var upTo := log[..j + 1];
    assert upTo[..|upTo| - 1] == log[..j] && upTo[j] == log[j];
    if !ReleasedBetween(log, log[i].lease.id, i, j) {
      HeldUntilReleased(log, i, j);
      UnexpiredMembers(Held(log[..j]), log[j].at);
    }
  }

  // ------------------------------------------------------------------------ the store

  datatype Reply = Refused | Busy | Leased(lease: Lease)

  predicate BadName(s: string) { s == "" || |s| > 256 }

  class ExecutionLeaseStore {
    const maxActive: nat
    const ttl: nat
    var stored: seq<Lease>
    ghost var log: seq<Event>
    ghost var clock: real

    ghost predicate Valid() reads this {
      && 1 <= maxActive <= 64 && 1 <= ttl <= 3600
      && Lawful(log, maxActive)
      && Last(log, clock) <= clock
      && Unexpired(stored, clock) == Unexpired(Held(log), clock)
    }

    constructor (maxActive: nat, ttl: nat, now: real)
      requires 1 <= maxActive <= 64 && 1 <= ttl <= 3600
      ensures Valid() && log == [] && clock == now && this.maxActive == maxActive && this.ttl == ttl
    {
      this.maxActive, this.ttl := maxActive, ttl;
      stored := [];
      log := [];
      clock := now;
    }

    /** What a read of the file at `now` finds: the leases in force. */
    lemma Loaded(now: real)
      requires Valid() && clock <= now
      ensures Unexpired(stored, now) == Unexpired(Held(log), now)
      ensures Separate(Unexpired(stored, now)) && |Unexpired(stored, now)| <= maxActive
    {
      hide Unexpired, Held, Lawful, Separate;
      UnexpiredLater(stored, clock, now);
      UnexpiredLater(Held(log), clock, now);
      HeldBounded(log, maxActive, now);
    }

    method Acquire(resource: string, owner: string, id: string, now: real, later: real) returns (reply: Reply)
      requires Valid() && clock <= now <= later
      modifies this
      ensures Valid() && clock == later
      ensures reply.Refused? <==> !(1 <= |Strip(resource)| <= 256) || !(1 <= |Strip(owner)| <= 256)
      ensures var held := Unexpired(Held(old(log)), now);
              && (reply.Busy? <==> !reply.Refused? && (Holds(held, Strip(resource)) || |held| >= maxActive))
              && (reply.Leased? ==> reply.lease == Lease(id, Strip(resource), Strip(owner), later + ttl as real))
      ensures log == if reply.Leased? then old(log) + [Granted(reply.lease, now)] else old(log)
      ensures !reply.Leased? ==> stored == old(stored)
    {
      hide Unexpired, Held, Lawful, Separate, Strip, Holds;
      var name, holder := Strip(resource), Strip(owner);
      Loaded(later);
      if BadName(name) || BadName(holder) {
        clock := later;
        return Refused;
      }
      Loaded(now);
      var leases := Unexpired(stored, now);
      if Holds(leases, name) || |leases| >= maxActive {
        clock := later;
        return Busy;
      }
      var lease := Lease(id, name, holder, later + ttl as real);
      GrantIsLawful(log, maxActive, lease, now);
      GrantStored(stored, log, lease, now, later);
      stored := leases + [lease];
      log := log + [Granted(lease, now)];
      clock := later;
      reply := Leased(lease);
    }

    method Release(id: string, now: real) returns (done: bool)
      requires Valid() && clock <= now
      modifies this
      ensures Valid() && clock == now
      ensures done <==> HoldsId(Unexpired(Held(old(log)), now), id)
      ensures log == if done then old(log) + [Released(id, now)] else old(log)
      ensures !done ==> stored == old(stored)
    {
      hide Unexpired, Held, Lawful, Separate, HoldsId, Without;
      Loaded(now);
      var leases := Unexpired(stored, now);
      var remaining := Without(leases, id);
      WithoutMembers(leases, id);
      if |remaining| == |leases| {
        clock := now;
        return false;
      }
      ReleaseIsLawful(log, maxActive, id, now);
      ReleaseStored(stored, log, id, now);
      stored := remaining;
      log := log + [Released(id, now)];
      clock := now;
      done := true;
    }

    method Active(now: real) returns (leases: seq<Lease>)
      requires Valid() && clock <= now
      modifies this
      ensures Valid() && clock == now && log == old(log)
      ensures leases == Unexpired(Held(log), now)
      ensures Separate(leases) && |leases| <= maxActive
    {
      hide Unexpired, Held, Lawful, Separate;
      Loaded(now);
      leases := Unexpired(stored, now);
      UnexpiredLater(stored, now, now);
      stored := leases;
      clock := now;
    }
  }

  lemma GrantIsLawful(log: seq<Event>, maxActive: nat, lease: Lease, now: real)
    requires Lawful(log, maxActive) && Last(log, now) <= now < lease.expiresAt
    requires !Holds(Unexpired(Held(log), now), lease.resource) && |Unexpired(Held(log), now)| < maxActive
    ensures Lawful(log + [Granted(lease, now)], maxActive)
  {
    hide Unexpired, Held, Holds;
    assert (log + [Granted(lease, now)])[..|log|] == log;
  }

  lemma ReleaseIsLawful(log: seq<Event>, maxActive: nat, id: string, now: real)
    requires Lawful(log, maxActive) && Last(log, now) <= now
    ensures Lawful(log + [Released(id, now)], maxActive)
  {
    hide Unexpired, Held, Holds;
    assert (log + [Released(id, now)])[..|log|] == log;
  }

  lemma GrantStored(stored: seq<Lease>, log: seq<Event>, lease: Lease, now: real, later: real)
    requires now <= later && Unexpired(stored, now) == Unexpired(Held(log), now)
    ensures Unexpired(Unexpired(stored, now) + [lease], later) == Unexpired(Held(log + [Granted(lease, now)]), later)
  {
    hide Unexpired;
    assert (log + [Granted(lease, now)])[..|log|] == log;
    UnexpiredConcat(Unexpired(stored, now), [lease], later);
    UnexpiredConcat(Held(log), [lease], later);
    UnexpiredLater(stored, now, later);
    UnexpiredLater(Held(log), now, later);
  }

  lemma ReleaseStored(stored: seq<Lease>, log: seq<Event>, id: string, now: real)
    requires Unexpired(stored, now) == Unexpired(Held(log), now)
    ensures Unexpired(Without(Unexpired(stored, now), id), now) == Unexpired(Held(log + [Released(id, now)]), now)
  {
    hide Unexpired, Without;
    assert (log + [Released(id, now)])[..|log|] == log;
    WithoutUnexpired(Unexpired(stored, now), id, now);
    WithoutUnexpired(Held(log), id, now);
    UnexpiredLater(stored, now, now);
  }
}
