/** The Redis seat-lock tables and the multi-seat claims made on them. */
module SeatLocks {
  import opened Collections

  /** A lock key names one seat of one trip (bus instance, train schedule). */
  datatype Key = Key(trip: nat, seat: nat)
  /** The stored value is the claiming user; Redis drops the entry after its last live instant. */
  datatype Lock = Lock(owner: nat, until: int)
  type Table = map<Key, Lock>

  predicate Live(t: Table, k: Key, now: int) {
    k in t && now <= t[k].until
  }

  function Purge(t: Table, now: int): Table {
    t - set k | k in t && t[k].until < now
  }

  function KeysOf(trip: nat, seats: seq<nat>): set<Key> {
    set s | s in seats :: Key(trip, s)
  }

  /** The table once owner holds exactly these seats besides what was there. */
  function Claimed(t: Table, trip: nat, seats: seq<nat>, owner: nat, until: int): Table {
    if seats == [] then t
    else Claimed(t, trip, seats[..|seats| - 1], owner, until)[Key(trip, seats[|seats| - 1]) := Lock(owner, until)]
  }

  lemma {:induction false} ClaimedExactly(t: Table, trip: nat, seats: seq<nat>, owner: nat, until: int)
    ensures var r := Claimed(t, trip, seats, owner, until);
            r.Keys == t.Keys + KeysOf(trip, seats)
            && forall k :: k in r ==> r[k] == if k in KeysOf(trip, seats) then Lock(owner, until) else t[k]
    decreases |seats|
  {
    if seats != [] {
      var n := |seats| - 1;
      ClaimedExactly(t, trip, seats[..n], owner, until);
      KeysOfSnoc(trip, seats, n);
      assert seats[..n + 1] == seats;
    }
  }

  /** From now on the claimed seats answer until the claim runs out, and all others as they did. */
  lemma ClaimedLive(t: Table, trip: nat, seats: seq<nat>, owner: nat, until: int, now: int, k: Key, at: int)
    requires now <= at
    ensures Live(Claimed(Purge(t, now), trip, seats, owner, until), k, at) <==>
              if k in KeysOf(trip, seats) then at <= until else Live(t, k, at)
  {
    ClaimedExactly(Purge(t, now), trip, seats, owner, until);
  }

  function ReleasedByOwner(t: Table, trip: nat, seats: seq<nat>, owner: nat, now: int): Table {
    t - set k | k in t && k in KeysOf(trip, seats) && now <= t[k].until && t[k].owner == owner
  }

  predicate AllFree(t: Table, trip: nat, seats: seq<nat>, now: int) {
    forall s :: s in seats ==> !Live(t, Key(trip, s), now)
  }

  /** Exactly the requests a multi-seat claim grants: no seat twice, no seat held by anyone. */
  predicate Grantable(t: Table, trip: nat, seats: seq<nat>, now: int) {
    NoDup(seats) && AllFree(t, trip, seats, now)
  }

  lemma KeysOfSnoc(trip: nat, seats: seq<nat>, i: nat)
    requires i < |seats|
    ensures KeysOf(trip, seats[..i + 1]) == KeysOf(trip, seats[..i]) + {Key(trip, seats[i])}
  {
    assert seats[..i + 1] == seats[..i] + [seats[i]];
  }

  /** Releasing what was just claimed on free seats restores the table, for either kind of release. */
  lemma ClaimThenRelease(t: Table, trip: nat, seats: seq<nat>, owner: nat, until: int, now: int)
    requires AllFree(t, trip, seats, now) && now <= until
    ensures ReleasedByOwner(Claimed(Purge(t, now), trip, seats, owner, until), trip, seats, owner, now) == Purge(t, now)
    ensures Claimed(Purge(t, now), trip, seats, owner, until) - KeysOf(trip, seats) == Purge(t, now)
  {
    var p := Purge(t, now);
    ClaimedExactly(p, trip, seats, owner, until);
    assert forall k :: k in KeysOf(trip, seats) ==> k !in p;
  }

  /** A claim one seat longer. */
  lemma ClaimSnoc(t: Table, trip: nat, held: seq<nat>, k: nat, owner: nat, until: int)
    ensures Key(trip, k) in Claimed(t, trip, held, owner, until) <==> Key(trip, k) in t || k in held
    ensures Key(trip, k) !in Claimed(t, trip, held, owner, until) ==>
              Claimed(t, trip, held, owner, until)[Key(trip, k) := Lock(owner, until)]
              == Claimed(t, trip, held + [k], owner, until)
  {
    ClaimedExactly(t, trip, held, owner, until);
    assert Key(trip, k) in KeysOf(trip, held) <==> k in held;
    assert (held + [k])[..|held|] == held;
  }

  lemma ClaimOneMore(t: Table, trip: nat, seats: seq<nat>, i: nat, owner: nat, until: int, now: int)
    requires i < |seats| && Grantable(t, trip, seats[..i], now)
    requires Key(trip, seats[i]) !in Claimed(Purge(t, now), trip, seats[..i], owner, until)
    ensures Claimed(Purge(t, now), trip, seats[..i], owner, until)[Key(trip, seats[i]) := Lock(owner, until)]
            == Claimed(Purge(t, now), trip, seats[..i + 1], owner, until)
    ensures Grantable(t, trip, seats[..i + 1], now)
  {
    ClaimedExactly(Purge(t, now), trip, seats[..i], owner, until);
    NoDupSnoc(seats[..i], seats[i]);
    assert seats[..i + 1] == seats[..i] + [seats[i]] && seats[..i + 1][..i] == seats[..i];
    assert Key(trip, seats[i]) in KeysOf(trip, seats[..i]) <==> seats[i] in seats[..i];
    assert !Live(t, Key(trip, seats[i]), now);
  }

  lemma ClaimBlocked(t: Table, trip: nat, seats: seq<nat>, i: nat, owner: nat, until: int, now: int)
    requires i < |seats| && Key(trip, seats[i]) in Claimed(Purge(t, now), trip, seats[..i], owner, until)
    ensures !Grantable(t, trip, seats, now)
  {
    ClaimedExactly(Purge(t, now), trip, seats[..i], owner, until);
    if Key(trip, seats[i]) in KeysOf(trip, seats[..i]) {
      var j :| 0 <= j < i && seats[..i][j] == seats[i];
      assert seats[j] == seats[i];
    } else {
      assert Live(t, Key(trip, seats[i]), now);
    }
  }

  datatype LockResult = Locked | Conflict(seat: nat) | Fault

  /** What a booking request meets outside the tables: the time that passes between claiming the locks and
      stamping ExpiresAt, the claim Redis answers with an error, and whether the database takes the rows. */
  datatype Env = Env(lag: nat, faultAt: Option<nat>, saved: bool)

  /** Redis answers the first n claims of a call. */
  predicate Answers(faultAt: Option<nat>, n: nat) {
    faultAt.Some? ==> n <= faultAt.value
  }

  class Redis {
    var table: Table

    constructor ()
      ensures table == map[]
    {
      table := map[];
    }

    /** Time reaches now: entries past their last live instant are gone. */
    method Expire(now: int)
      modifies this
      ensures table == Purge(old(table), now)
    {
      table := Purge(table, now);
    }

    method SetNX(k: Key, owner: nat, until: int) returns (acquired: bool)
      modifies this
      ensures acquired == (k !in old(table))
      ensures table == if acquired then old(table)[k := Lock(owner, until)] else old(table)
    {
      acquired := k !in table;
      if acquired {
        table := table[k := Lock(owner, until)];
      }
    }

    method Del(keys: set<Key>)
      modifies this
      ensures table == old(table) - keys
    {
      table := table - keys;
    }

    /** The Lua script: delete the key only while it is live and holds this owner. */
    method DelIfOwner(k: Key, owner: nat, now: int)
      modifies this
      ensures table == if Live(old(table), k, now) && old(table)[k].owner == owner then old(table) - {k} else old(table)
    {
      if Live(table, k, now) && table[k].owner == owner {
        table := table - {k};
      }
    }

    /** Bus rollback and release: seat by seat, owner checked. */
    method UnlockSeatsByOwner(trip: nat, seats: seq<nat>, owner: nat, now: int)
      modifies this
      ensures table == ReleasedByOwner(old(table), trip, seats, owner, now)
    {
      assert table == ReleasedByOwner(old(table), trip, seats[..0], owner, now);
      for i := 0 to |seats|
        invariant table == ReleasedByOwner(old(table), trip, seats[..i], owner, now)
      {
        KeysOfSnoc(trip, seats, i);
        DelIfOwner(Key(trip, seats[i]), owner, now);
        assert table == ReleasedByOwner(old(table), trip, seats[..i + 1], owner, now);
      }
      assert seats[..|seats|] == seats;
    }

    /** Train release: one batch deletion, no owner check. */
    method UnlockSeats(trip: nat, seats: seq<nat>)
      modifies this
      ensures table == old(table) - KeysOf(trip, seats)
    {
      if |seats| == 0 {
        return;
      }
      Del(KeysOf(trip, seats));
    }

    method TakeBack(trip: nat, locked: seq<nat>, owner: nat, now: int, batch: bool)
      modifies this
      ensures table == if batch then old(table) - KeysOf(trip, locked)
                       else ReleasedByOwner(old(table), trip, locked, owner, now)
    {
      if batch {
        UnlockSeats(trip, locked);
      } else {
        UnlockSeatsByOwner(trip, locked, owner, now);
      }
    }

    /** Rollback of a claim on free seats puts the table back. */
    method GiveBack(trip: nat, locked: seq<nat>, owner: nat, now: int, batch: bool, ghost before: Table,
                    ghost until: int)
      requires AllFree(before, trip, locked, now) && now <= until
      requires table == Claimed(Purge(before, now), trip, locked, owner, until)
      modifies this
      ensures table == Purge(before, now)
    {
      ClaimThenRelease(before, trip, locked, owner, until, now);
      TakeBack(trip, locked, owner, now, batch);
    }

    /** One turn of the claim loop: the seat is claimed, or everything claimed so far is given back. */
    method ClaimNext(trip: nat, seats: seq<nat>, i: nat, owner: nat, ttl: nat, now: int, fault: bool, batch: bool,
                     ghost before: Table)
      returns (r: LockResult)
      requires i < |seats| && Grantable(before, trip, seats[..i], now)
      requires table == Claimed(Purge(before, now), trip, seats[..i], owner, now + ttl)
      modifies this
      ensures r.Fault? <==> fault
      ensures r.Locked? ==> Grantable(before, trip, seats[..i + 1], now)
                            && table == Claimed(Purge(before, now), trip, seats[..i + 1], owner, now + ttl)
      ensures !r.Locked? ==> table == Purge(before, now)
      ensures r.Conflict? ==> r.seat == seats[i] && !Grantable(before, trip, seats, now)
    {
      if fault {
        GiveBack(trip, seats[..i], owner, now, batch, before, now + ttl);
        return Fault;
      }
      var acquired := SetNX(Key(trip, seats[i]), owner, now + ttl);
      if !acquired {
        ClaimBlocked(before, trip, seats, i, owner, now + ttl, now);
        GiveBack(trip, seats[..i], owner, now, batch, before, now + ttl);
        return Conflict(seats[i]);
      }
      ClaimOneMore(before, trip, seats, i, owner, now + ttl, now);
      return Locked;
    }

    /** Claim every seat or none. faultAt is the SetNX call Redis answers with an error, if any;
        batch picks the train rollback, otherwise the bus one. */
    method LockSeats(trip: nat, seats: seq<nat>, owner: nat, ttl: nat, now: int, faultAt: Option<nat>, batch: bool)
      returns (r: LockResult)
      modifies this
      ensures r.Locked? <==> Grantable(old(table), trip, seats, now) && Answers(faultAt, |seats|)
      ensures table == if r.Locked? then Claimed(Purge(old(table), now), trip, seats, owner, now + ttl)
                       else Purge(old(table), now)
      ensures r.Conflict? ==> r.seat in seats && !Grantable(old(table), trip, seats, now)
      ensures r.Fault? ==> !Answers(faultAt, |seats|)
    {
      Expire(now);
      for i := 0 to |seats|
        invariant table == Claimed(Purge(old(table), now), trip, seats[..i], owner, now + ttl)
        invariant Grantable(old(table), trip, seats[..i], now)
        invariant Answers(faultAt, i) || Answers(faultAt, |seats|)
      {
        r := ClaimNext(trip, seats, i, owner, ttl, now, faultAt == Some(i), batch, old(table));
        if !r.Locked? {
          return;
        }
      }
      assert seats[..|seats|] == seats;
      return Locked;
    }
  }

  /** The subsequence of first occurrences. */
  function FirstOccurrences(s: seq<nat>): seq<nat> {
    if s == [] then []
    else
      var rest := FirstOccurrences(s[..|s| - 1]);
      if s[|s| - 1] in s[..|s| - 1] then rest else rest + [s[|s| - 1]]
  }

  lemma {:induction false} FirstOccurrencesDistinct(s: seq<nat>)
    ensures NoDup(FirstOccurrences(s))
    ensures forall x :: x in FirstOccurrences(s) <==> x in s
    ensures |FirstOccurrences(s)| <= |s|
  {
    if s != [] {
      var init, last := s[..|s| - 1], s[|s| - 1];
      assert s == init + [last];
      FirstOccurrencesDistinct(init);
    }
  }

  /** Each kept value stands where it first occurs, so the kept values keep their order. */
  lemma {:induction false} FirstOccurrencesOrdered(s: seq<nat>, i: nat, j: nat)
    requires i < j < |FirstOccurrences(s)|
    ensures exists p, q :: 0 <= p < q < |s| && s[p] == FirstOccurrences(s)[i] && s[q] == FirstOccurrences(s)[j]
                           && s[p] !in s[..p] && s[q] !in s[..q]
  {
    var init, last := s[..|s| - 1], s[|s| - 1];
    assert s == init + [last];
    var rest := FirstOccurrences(init);
    if j < |rest| {
      FirstOccurrencesOrdered(init, i, j);
      var p, q :| 0 <= p < q < |init| && init[p] == rest[i] && init[q] == rest[j] && init[p] !in init[..p]
                  && init[q] !in init[..q];
      assert s[..p] == init[..p] && s[..q] == init[..q];
      assert s[p] == FirstOccurrences(s)[i] && s[q] == FirstOccurrences(s)[j];
    } else {
      var p := FirstOccurrenceAt(init, i);
      var q := |s| - 1;
      assert s[..p] == init[..p] && s[..q] == init;
      assert s[p] == FirstOccurrences(s)[i] && s[q] == FirstOccurrences(s)[j];
    }
  }

  lemma {:induction false} FirstOccurrenceAt(s: seq<nat>, i: nat) returns (p: nat)
    requires i < |FirstOccurrences(s)|
    ensures p < |s| && s[p] == FirstOccurrences(s)[i] && s[p] !in s[..p]
  {
    var init := s[..|s| - 1];
    if i < |FirstOccurrences(init)| {
      p := FirstOccurrenceAt(init, i);
      assert s[..p] == init[..p];
    } else {
      p := |s| - 1;
    }
  }

  lemma FirstOccurrencesSnoc(s: seq<nat>, i: nat)
    requires i < |s|
    ensures SetOf(s[..i + 1]) == SetOf(s[..i]) + {s[i]} && (s[i] in SetOf(s[..i]) <==> s[i] in s[..i])
    ensures FirstOccurrences(s[..i + 1]) == FirstOccurrences(s[..i]) + if s[i] in s[..i] then [] else [s[i]]
  {
    assert s[..i + 1][..i] == s[..i] && s[..i + 1] == s[..i] + [s[i]];
  }

  /** The in-place dedup: the slice being written is the front of the slice being read. */
  method DedupInPlace(a: array<nat>, n: nat) returns (kept: nat)
    requires n <= a.Length
    modifies a
    ensures kept <= n
    ensures a[..kept] == FirstOccurrences(old(a[..n]))
    ensures a[n..] == old(a[n..])
  {
    var seen: set<nat> := {};
    kept := 0;
    ghost var was := a[..n];
    for i := 0 to n
      invariant kept <= i
      invariant forall m :: i <= m < a.Length ==> a[m] == old(a[m])
      invariant seen == SetOf(was[..i])
      invariant a[..kept] == FirstOccurrences(was[..i])
    {
      var id := a[i];
      FirstOccurrencesSnoc(was, i);
      if id !in seen {
        seen := seen + {id};
        a[kept] := id;
        kept := kept + 1;
        assert a[..kept] == FirstOccurrences(was[..i]) + [id];
      }
    }
    assert was[..n] == was;
  }

  /** The bus request path: after the dedup only seats someone else holds can make the claim fail, and
      it claims exactly the requested set. */
  lemma DedupedClaim(t: Table, trip: nat, requested: seq<nat>, owner: nat, until: int, now: int)
    ensures Grantable(t, trip, FirstOccurrences(requested), now) <==> AllFree(t, trip, requested, now)
    ensures Claimed(t, trip, FirstOccurrences(requested), owner, until) == Claimed(t, trip, requested, owner, until)
  {
    FirstOccurrencesDistinct(requested);
    ClaimedExactly(t, trip, requested, owner, until);
    ClaimedExactly(t, trip, FirstOccurrences(requested), owner, until);
    assert KeysOf(trip, FirstOccurrences(requested)) == KeysOf(trip, requested);
  }

  /** Releasing the deduped seats gives back what was claimed for the request. */
  lemma DedupedRelease(t: Table, trip: nat, requested: seq<nat>, owner: nat, until: int, now: int)
    requires AllFree(t, trip, requested, now) && now <= until
    ensures ReleasedByOwner(Claimed(Purge(t, now), trip, requested, owner, until), trip,
                            FirstOccurrences(requested), owner, now) == Purge(t, now)
  {
    DedupedClaim(Purge(t, now), trip, requested, owner, until, now);
    FirstOccurrencesDistinct(requested);
    ClaimThenRelease(t, trip, FirstOccurrences(requested), owner, until, now);
  }

  /** The bus request path as the service runs it: dedup in place, then claim. */
  method DedupAndLock(rdb: Redis, trip: nat, ids: array<nat>, n: nat, owner: nat, ttl: nat, now: int,
                      faultAt: Option<nat>)
    returns (kept: nat, r: LockResult)
    requires n <= ids.Length
    modifies rdb, ids
    ensures kept <= n && ids[..kept] == FirstOccurrences(old(ids[..n]))
    ensures r.Locked? <==> AllFree(old(rdb.table), trip, old(ids[..n]), now) && Answers(faultAt, kept)
    ensures r.Conflict? ==> !AllFree(old(rdb.table), trip, old(ids[..n]), now)
    ensures rdb.table == if r.Locked? then Claimed(Purge(old(rdb.table), now), trip, old(ids[..n]), owner, now + ttl)
                         else Purge(old(rdb.table), now)
  {
    kept := DedupInPlace(ids, n);
    r := rdb.LockSeats(trip, ids[..kept], owner, ttl, now, faultAt, false);
    DedupedClaim(old(rdb.table), trip, old(ids[..n]), owner, now + ttl, now);
    DedupedClaim(Purge(old(rdb.table), now), trip, old(ids[..n]), owner, now + ttl, now);
  }

  /** The same with the insert that follows: a request whose row is not saved gives its locks back. */
  method DedupAndSave(rdb: Redis, trip: nat, ids: array<nat>, n: nat, owner: nat, ttl: nat, now: int, env: Env)
    returns (held: bool)
    requires n <= ids.Length
    modifies rdb, ids
    ensures held == (AllFree(old(rdb.table), trip, old(ids[..n]), now)
                     && Answers(env.faultAt, |FirstOccurrences(old(ids[..n]))|))
    ensures var alive := Purge(old(rdb.table), now);
            rdb.table == if held && env.saved then Claimed(alive, trip, old(ids[..n]), owner, now + ttl) else alive
  {
    var kept, locked := DedupAndLock(rdb, trip, ids, n, owner, ttl, now, env.faultAt);
    held := locked.Locked?;
    if held && !env.saved {
      DedupedRelease(old(rdb.table), trip, old(ids[..n]), owner, now + ttl, now);
      rdb.UnlockSeatsByOwner(trip, ids[..kept], owner, now);
    }
  }

  /** The train request path has no dedup: a list with a repeat is refused whatever the table holds. */
  method LockTrainSeats(rdb: Redis, trip: nat, seats: seq<nat>, owner: nat, ttl: nat, now: int, faultAt: Option<nat>)
    returns (r: LockResult)
    modifies rdb
    ensures !NoDup(seats) ==> !r.Locked? && rdb.table == Purge(old(rdb.table), now)
    ensures !NoDup(seats) && Answers(faultAt, |seats|) ==> r.Conflict?
    ensures r.Locked? <==> Grantable(old(rdb.table), trip, seats, now) && Answers(faultAt, |seats|)
    ensures rdb.table == if r.Locked? then Claimed(Purge(old(rdb.table), now), trip, seats, owner, now + ttl)
                         else Purge(old(rdb.table), now)
  {
    r := rdb.LockSeats(trip, seats, owner, ttl, now, faultAt, true);
  }
}
