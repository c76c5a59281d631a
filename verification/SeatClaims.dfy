/** The hold-by-lock protocol that buses and flights share: creating a booking touches no seat row, a timed lock
    alone keeps others away until a payment takes the seats. Each service's tables are seen as a board. */
module SeatClaims {
  import opened Collections
  import opened SeatLocks

  /** Held: waiting for payment. Taken: confirmed. Over: anything else. */
  datatype Phase = Held | Taken | Over

  /** lockedUntil is when the booking's locks lapse, expiresAt the end of the window its row shows. */
  datatype Claim = Claim(user: nat, trip: nat, seats: seq<nat>, phase: Phase, lockedUntil: int, expiresAt: int)

  datatype Place = Place(trip: nat, available: bool)

  datatype Board = Board(claims: seq<Claim>, places: seq<Place>, locks: Table)

  // ---- The invariant ---------------------------------------------------------------------------------

  predicate HasClaim(c: Claim, now: int) {
    c.phase == Taken || (c.phase == Held && now <= c.lockedUntil)
  }

  predicate Claims(claims: seq<Claim>, now: int, i: int, k: nat) {
    0 <= i < |claims| && HasClaim(claims[i], now) && k in claims[i].seats
  }

  predicate PlacedIn(c: Claim, places: seq<Place>) {
    forall k :: k in c.seats ==> k < |places| && places[k].trip == c.trip
  }

  predicate Placed(claims: seq<Claim>, places: seq<Place>) {
    forall i :: 0 <= i < |claims| ==> PlacedIn(claims[i], places)
  }

  ghost predicate Apart(claims: seq<Claim>, now: int) {
    forall i, j, k: nat :: Claims(claims, now, i, k) && Claims(claims, now, j, k) ==> i == j
  }

  /** The lock on this seat is the booking's own and lives as long as its claim. */
  predicate Locked(locks: Table, c: Claim, k: nat) {
    var key := Key(c.trip, k);
    key in locks && locks[key].owner == c.user && c.lockedUntil <= locks[key].until
  }

  ghost predicate HeldLocked(claims: seq<Claim>, locks: Table, now: int) {
    forall i, k: nat :: Claims(claims, now, i, k) && claims[i].phase == Held ==> Locked(locks, claims[i], k)
  }

  ghost predicate TakenShut(claims: seq<Claim>, places: seq<Place>, now: int) {
    forall i, k: nat :: Claims(claims, now, i, k) && claims[i].phase == Taken ==>
      k < |places| && !places[k].available
  }

  /** Every pending booking with a claim owns live locks on its seats, every confirmed seat is unavailable,
      and no two bookings with a claim share a seat. */
  ghost predicate Safe(b: Board, now: int) {
    && Placed(b.claims, b.places)
    && Apart(b.claims, now)
    && HeldLocked(b.claims, b.locks, now)
    && TakenShut(b.claims, b.places, now)
  }

  predicate Names(claims: seq<Claim>, i: int, k: nat) {
    0 <= i < |claims| && k in claims[i].seats
  }

  /** The lock was claimed for this pending booking and lapses no later than its claim. */
  predicate Backs(c: Claim, trip: nat, k: nat, l: Lock) {
    c.phase == Held && c.trip == trip && k in c.seats && c.user == l.owner && l.until <= c.lockedUntil
  }

  ghost predicate LockBacked(claims: seq<Claim>, trip: nat, k: nat, l: Lock) {
    exists j :: 0 <= j < |claims| && Backs(claims[j], trip, k, l)
  }

  /** A live lock on a booked seat belongs to a pending booking. */
  ghost predicate LocksBacked(claims: seq<Claim>, locks: Table, now: int) {
    forall i, k: nat :: Names(claims, i, k) && Live(locks, Key(claims[i].trip, k), now) ==>
      LockBacked(claims, claims[i].trip, k, locks[Key(claims[i].trip, k)])
  }

  predicate TakesSeat(claims: seq<Claim>, i: int, k: nat) {
    Names(claims, i, k) && claims[i].phase == Taken
  }

  /** A booked seat that is unavailable belongs to a confirmed booking. */
  ghost predicate ShutBacked(claims: seq<Claim>, places: seq<Place>) {
    forall i, k: nat :: Names(claims, i, k) && k < |places| && !places[k].available ==>
      exists j :: TakesSeat(claims, j, k)
  }

  /** The window is stamped no earlier than the locks were claimed, and at most gap later. */
  predicate Stamped(claims: seq<Claim>, gap: nat) {
    forall i :: 0 <= i < |claims| ==> claims[i].lockedUntil <= claims[i].expiresAt <= claims[i].lockedUntil + gap
  }

  /** Locks and seat rows tell who has a claim: neither is left behind by a booking that is over. */
  ghost predicate Backed(b: Board, now: int, gap: nat) {
    LocksBacked(b.claims, b.locks, now) && ShutBacked(b.claims, b.places) && Stamped(b.claims, gap)
  }

  lemma TimePasses(b: Board, now: int, later: int)
    requires Safe(b, now) && now <= later
    ensures Safe(b, later)
  {
    assert forall i, k: nat :: Claims(b.claims, later, i, k) ==> Claims(b.claims, now, i, k);
  }

  lemma PurgeKeeps(b: Board, now: int, gap: nat)
    ensures Safe(b, now) ==> Safe(b.(locks := Purge(b.locks, now)), now)
    ensures Backed(b, now, gap) ==> Backed(b.(locks := Purge(b.locks, now)), now, gap)
  {
    var locks' := Purge(b.locks, now);
    if Safe(b, now) {
      forall i, k: nat | Claims(b.claims, now, i, k) && b.claims[i].phase == Held
        ensures Locked(locks', b.claims[i], k)
      {
        assert Locked(b.locks, b.claims[i], k);
      }
    }
  }

  // ---- A new booking ---------------------------------------------------------------------------------

  function Opened(b: Board, c: Claim, now: int): Board {
    b.(claims := b.claims + [c], locks := Claimed(Purge(b.locks, now), c.trip, c.seats, c.user, c.lockedUntil))
  }

  /** The seats a request may claim: available rows of its trip that nobody has locked. */
  predicate Openable(b: Board, c: Claim, now: int) {
    && c.phase == Held && now <= c.lockedUntil
    && (forall k :: k in c.seats ==> k < |b.places| && b.places[k].available && b.places[k].trip == c.trip)
    && AllFree(b.locks, c.trip, c.seats, now)
  }

  lemma OpenKeepsApart(b: Board, c: Claim, now: int)
    requires Safe(b, now) && Openable(b, c, now)
    ensures Apart(b.claims + [c], now)
  {
    var claims', n := b.claims + [c], |b.claims|;
    forall i, k: nat | Claims(b.claims, now, i, k)
      ensures k !in c.seats
    {
      assert PlacedIn(b.claims[i], b.places);
      if b.claims[i].phase == Held {
        assert Locked(b.locks, b.claims[i], k);
        assert Live(b.locks, Key(b.claims[i].trip, k), now);
      } else {
        assert !b.places[k].available;
      }
    }
    assert forall i, k: nat :: Claims(claims', now, i, k) ==>
             Claims(b.claims, now, i, k) || (i == n && k in c.seats);
  }

  lemma OpenKeepsLocked(b: Board, c: Claim, now: int)
    requires HeldLocked(b.claims, b.locks, now) && Openable(b, c, now)
    ensures HeldLocked(b.claims + [c], Opened(b, c, now).locks, now)
  {
    var claims', locks' := b.claims + [c], Opened(b, c, now).locks;
    ClaimedExactly(Purge(b.locks, now), c.trip, c.seats, c.user, c.lockedUntil);
    forall i, k: nat | Claims(claims', now, i, k) && claims'[i].phase == Held
      ensures Locked(locks', claims'[i], k)
    {
      if i < |b.claims| {
        assert Claims(b.claims, now, i, k);
        assert Locked(b.locks, b.claims[i], k);
        assert Live(b.locks, Key(b.claims[i].trip, k), now);
        assert Key(b.claims[i].trip, k) !in KeysOf(c.trip, c.seats);
      } else {
        assert Key(c.trip, k) in KeysOf(c.trip, c.seats);
      }
    }
  }

  lemma OpenKeepsSafe(b: Board, c: Claim, now: int)
    requires Safe(b, now) && Openable(b, c, now)
    ensures Safe(Opened(b, c, now), now)
  {
    OpenKeepsApart(b, c, now);
    OpenKeepsLocked(b, c, now);
    assert forall i, k: nat :: Claims(b.claims + [c], now, i, k) && (b.claims + [c])[i].phase == Taken ==>
             Claims(b.claims, now, i, k);
  }

  lemma OpenKeepsBacked(b: Board, c: Claim, now: int, gap: nat)
    requires Backed(b, now, gap) && Openable(b, c, now) && c.lockedUntil <= c.expiresAt <= c.lockedUntil + gap
    ensures Backed(Opened(b, c, now), now, gap)
  {
    var claims', locks', n := b.claims + [c], Opened(b, c, now).locks, |b.claims|;
    ClaimedExactly(Purge(b.locks, now), c.trip, c.seats, c.user, c.lockedUntil);
    forall i, k: nat | Names(claims', i, k) && Live(locks', Key(claims'[i].trip, k), now)
      ensures LockBacked(claims', claims'[i].trip, k, locks'[Key(claims'[i].trip, k)])
    {
      var trip := claims'[i].trip;
      if Key(trip, k) in KeysOf(c.trip, c.seats) {
        assert Backs(claims'[n], trip, k, locks'[Key(trip, k)]);
      } else {
        assert i < n && Names(b.claims, i, k) && Live(b.locks, Key(trip, k), now);
        var j :| 0 <= j < n && Backs(b.claims[j], trip, k, b.locks[Key(trip, k)]);
        assert Backs(claims'[j], trip, k, locks'[Key(trip, k)]);
      }
    }
    forall i, k: nat | Names(claims', i, k) && k < |b.places| && !b.places[k].available
      ensures exists j :: TakesSeat(claims', j, k)
    {
      assert Names(b.claims, i, k);
      var j :| TakesSeat(b.claims, j, k);
      assert TakesSeat(claims', j, k);
    }
  }

  // ---- One booking changes ---------------------------------------------------------------------------

  function SetOpen(places: seq<Place>, ids: seq<nat>, available: bool): (r: seq<Place>)
    ensures |r| == |places|
    ensures forall i :: 0 <= i < |places| ==>
              r[i] == if i in ids then places[i].(available := available) else places[i]
  {
    UpdateRows(places, ids, (p: Place) => p.(available := available))
  }

  function InPhase(claims: seq<Claim>, id: nat, phase: Phase): seq<Claim>
    requires id < |claims|
  {
    claims[id := claims[id].(phase := phase)]
  }

  /** A payment: the booking takes its seats. */
  function Take(b: Board, id: nat, locks: Table): Board
    requires id < |b.claims|
  {
    Board(InPhase(b.claims, id, Taken), SetOpen(b.places, b.claims[id].seats, false), locks)
  }

  /** A cancellation: the booking gives its seats back. */
  function Quit(b: Board, id: nat, locks: Table): Board
    requires id < |b.claims|
  {
    Board(InPhase(b.claims, id, Over), SetOpen(b.places, b.claims[id].seats, true), locks)
  }

  /** A release touches no lock but those on the booking's seats, and leaves none of its own alive. */
  predicate Releases(locks: Table, locks': Table, c: Claim, now: int) {
    && (forall key :: key in locks' ==> key in locks && locks'[key] == locks[key])
    && (forall key :: key in locks && key !in locks' ==> key in KeysOf(c.trip, c.seats))
    && (forall k :: k in c.seats && Live(locks', Key(c.trip, k), now) ==> locks'[Key(c.trip, k)].owner != c.user)
  }

  /** An owner-checked release also spares the locks of other users. */
  predicate SparesOthers(locks: Table, locks': Table, c: Claim) {
    forall key :: key in locks && key !in locks' ==> locks[key].owner == c.user
  }

  /** No other booking has a claim on a seat of this one. */
  ghost predicate Unrivalled(claims: seq<Claim>, now: int, id: nat)
    requires id < |claims|
  {
    forall i, k: nat :: i != id && Claims(claims, now, i, k) ==> k !in claims[id].seats
  }

  /** Whoever has a claim on a seat of this booking is another user, still waiting for payment. */
  ghost predicate OnlyOthersHold(claims: seq<Claim>, now: int, id: nat)
    requires id < |claims|
  {
    forall i, k: nat :: i != id && Claims(claims, now, i, k) && k in claims[id].seats ==>
      claims[i].phase == Held && claims[i].user != claims[id].user
  }

  /** A booking in a new phase stays apart from the others while it has a claim nobody rivals. */
  lemma PhaseKeepsApart(b: Board, now: int, id: nat, phase: Phase, available: bool)
    requires Placed(b.claims, b.places) && Apart(b.claims, now) && id < |b.claims|
    requires phase == Over || Unrivalled(b.claims, now, id)
    ensures var places' := SetOpen(b.places, b.claims[id].seats, available);
            Placed(InPhase(b.claims, id, phase), places') && Apart(InPhase(b.claims, id, phase), now)
  {
    var claims' := InPhase(b.claims, id, phase);
    forall i | 0 <= i < |claims'|
      ensures PlacedIn(claims'[i], SetOpen(b.places, b.claims[id].seats, available))
    {
      assert PlacedIn(b.claims[i], b.places);
    }
    assert forall i, k: nat :: Claims(claims', now, i, k) && i != id ==> Claims(b.claims, now, i, k);
    assert forall k: nat :: Claims(claims', now, id, k) ==> k in b.claims[id].seats;
  }

  lemma ReleaseKeepsLocked(b: Board, now: int, id: nat, phase: Phase, locks': Table)
    requires HeldLocked(b.claims, b.locks, now) && id < |b.claims| && phase != Held
    requires Releases(b.locks, locks', b.claims[id], now)
    requires Unrivalled(b.claims, now, id)
             || (SparesOthers(b.locks, locks', b.claims[id]) && OnlyOthersHold(b.claims, now, id))
    ensures HeldLocked(InPhase(b.claims, id, phase), locks', now)
  {
    var c, claims' := b.claims[id], InPhase(b.claims, id, phase);
    forall i, k: nat | Claims(claims', now, i, k) && claims'[i].phase == Held
      ensures Locked(locks', claims'[i], k)
    {
      assert i != id && Claims(b.claims, now, i, k);
      assert Locked(b.locks, b.claims[i], k);
      assert Key(b.claims[i].trip, k) in KeysOf(c.trip, c.seats) ==> k in c.seats;
    }
  }

  lemma TakeKeepsSafe(b: Board, now: int, id: nat, locks': Table)
    requires Safe(b, now) && id < |b.claims| && Unrivalled(b.claims, now, id)
    requires Releases(b.locks, locks', b.claims[id], now)
    ensures Safe(Take(b, id, locks'), now)
  {
    var b' := Take(b, id, locks');
    PhaseKeepsApart(b, now, id, Taken, false);
    ReleaseKeepsLocked(b, now, id, Taken, locks');
    forall i, k: nat | Claims(b'.claims, now, i, k) && b'.claims[i].phase == Taken
      ensures k < |b'.places| && !b'.places[k].available
    {
      assert PlacedIn(b.claims[i], b.places);
      assert i != id ==> Claims(b.claims, now, i, k);
    }
  }

  /** Taking over another claim gives one seat two holders. */
  lemma TakeBreaksSafe(b: Board, now: int, id: nat, locks': Table)
    requires id < |b.claims| && !Unrivalled(b.claims, now, id)
    ensures !Safe(Take(b, id, locks'), now)
  {
    var b' := Take(b, id, locks');
    var i, k: nat :| i != id && Claims(b.claims, now, i, k) && k in b.claims[id].seats;
    assert Claims(b'.claims, now, i, k) && Claims(b'.claims, now, id, k);
  }

  lemma QuitKeepsSafe(b: Board, now: int, id: nat, locks': Table)
    requires Safe(b, now) && id < |b.claims| && OnlyOthersHold(b.claims, now, id)
    requires Releases(b.locks, locks', b.claims[id], now) && SparesOthers(b.locks, locks', b.claims[id])
    ensures Safe(Quit(b, id, locks'), now)
  {
    var b' := Quit(b, id, locks');
    PhaseKeepsApart(b, now, id, Over, true);
    ReleaseKeepsLocked(b, now, id, Over, locks');
    assert forall i, k: nat :: Claims(b'.claims, now, i, k) ==> i != id && Claims(b.claims, now, i, k);
  }

  /** Quitting over a claim either frees a confirmed seat or drops the lock of a pending booking. */
  lemma QuitBreaksSafe(b: Board, now: int, id: nat, locks': Table)
    requires Safe(b, now) && id < |b.claims| && !OnlyOthersHold(b.claims, now, id)
    requires Releases(b.locks, locks', b.claims[id], now)
    ensures !Safe(Quit(b, id, locks'), now)
  {
    var c, b' := b.claims[id], Quit(b, id, locks');
    var i, k: nat :| i != id && Claims(b.claims, now, i, k) && k in c.seats
                     && (b.claims[i].phase == Taken || b.claims[i].user == c.user);
    assert Claims(b'.claims, now, i, k);
    assert PlacedIn(b.claims[i], b.places) && PlacedIn(c, b.places);
    if b.claims[i].phase == Taken {
      assert b'.places[k].available;
    } else {
      assert Locked(b.locks, b.claims[i], k);
      assert !Locked(locks', b.claims[i], k);
    }
  }

  /** A confirmed booking quits without touching the locks. */
  lemma TakenQuitKeepsSafe(b: Board, now: int, id: nat)
    requires Safe(b, now) && id < |b.claims| && b.claims[id].phase == Taken
    ensures Safe(Quit(b, id, b.locks), now)
  {
    var b' := Quit(b, id, b.locks);
    PhaseKeepsApart(b, now, id, Over, true);
    forall i, k: nat | Claims(b'.claims, now, i, k)
      ensures i != id && Claims(b.claims, now, i, k) && k !in b.claims[id].seats
    {
      assert i != id && Claims(b.claims, now, i, k);
      assert k in b.claims[id].seats ==> Claims(b.claims, now, id, k);
    }
  }

  // ---- Windows that run out --------------------------------------------------------------------------

  function SweptClaim(c: Claim, now: int): Claim {
    if c.phase == Held && c.expiresAt < now then c.(phase := Over) else c
  }

  /** The pending bookings past their window are over, among all of them or only the one named. */
  predicate Lapses(claims: seq<Claim>, claims': seq<Claim>, now: int) {
    |claims'| == |claims| && forall i :: 0 <= i < |claims| ==> claims'[i] in {claims[i], SweptClaim(claims[i], now)}
  }

  lemma LapseKeepsSafe(b: Board, claims': seq<Claim>, now: int)
    requires Safe(b, now) && Lapses(b.claims, claims', now)
    ensures Safe(b.(claims := claims'), now)
  {
    forall i | 0 <= i < |claims'|
      ensures PlacedIn(claims'[i], b.places)
    {
      assert PlacedIn(b.claims[i], b.places);
    }
    assert forall i, k: nat :: Claims(claims', now, i, k) ==>
             Claims(b.claims, now, i, k) && claims'[i] == b.claims[i];
  }

  lemma LapseKeepsBacked(b: Board, claims': seq<Claim>, now: int, gap: nat)
    requires Backed(b, now, gap) && Lapses(b.claims, claims', now)
    ensures Backed(b.(claims := claims'), now, gap)
  {
    assert forall i, k: nat :: Names(claims', i, k) <==> Names(b.claims, i, k);
    forall i, k: nat | Names(claims', i, k) && Live(b.locks, Key(claims'[i].trip, k), now)
      ensures LockBacked(claims', claims'[i].trip, k, b.locks[Key(claims'[i].trip, k)])
    {
      var trip := b.claims[i].trip;
      var j :| 0 <= j < |b.claims| && Backs(b.claims[j], trip, k, b.locks[Key(trip, k)]);
      assert Backs(claims'[j], trip, k, b.locks[Key(trip, k)]);
    }
    forall i, k: nat | Names(claims', i, k) && k < |b.places| && !b.places[k].available
      ensures exists j :: TakesSeat(claims', j, k)
    {
      var j :| TakesSeat(b.claims, j, k);
      assert TakesSeat(claims', j, k);
    }
  }

  // ---- Locks and seat rows stay in step --------------------------------------------------------------

  /** A booking leaves HELD together with its live locks. */
  lemma LeaveKeepsLocks(b: Board, now: int, id: nat, phase: Phase, locks': Table)
    requires LocksBacked(b.claims, b.locks, now) && id < |b.claims|
    requires forall key :: key in locks' ==> key in b.locks && locks'[key] == b.locks[key]
    requires b.claims[id].phase == Taken || Releases(b.locks, locks', b.claims[id], now)
    ensures LocksBacked(InPhase(b.claims, id, phase), locks', now)
  {
    var claims' := InPhase(b.claims, id, phase);
    forall i, k: nat | Names(claims', i, k) && Live(locks', Key(claims'[i].trip, k), now)
      ensures LockBacked(claims', claims'[i].trip, k, locks'[Key(claims'[i].trip, k)])
    {
      var trip := claims'[i].trip;
      assert Names(b.claims, i, k) && Live(b.locks, Key(trip, k), now);
      var j :| 0 <= j < |b.claims| && Backs(b.claims[j], trip, k, b.locks[Key(trip, k)]);
      assert j != id && Backs(claims'[j], trip, k, locks'[Key(trip, k)]);
    }
  }

  lemma PhaseKeepsShut(b: Board, id: nat, phase: Phase)
    requires ShutBacked(b.claims, b.places) && id < |b.claims|
    ensures ShutBacked(InPhase(b.claims, id, phase), SetOpen(b.places, b.claims[id].seats, phase != Taken))
  {
    var claims', places' := InPhase(b.claims, id, phase), SetOpen(b.places, b.claims[id].seats, phase != Taken);
    forall i, k: nat | Names(claims', i, k) && k < |places'| && !places'[k].available
      ensures exists j :: TakesSeat(claims', j, k)
    {
      assert Names(b.claims, i, k);
      if k in b.claims[id].seats {
        assert TakesSeat(claims', id, k);
      } else {
        var j :| TakesSeat(b.claims, j, k);
        assert j != id && TakesSeat(claims', j, k);
      }
    }
  }

  lemma TakeKeepsBacked(b: Board, now: int, gap: nat, id: nat, locks': Table)
    requires Backed(b, now, gap) && id < |b.claims| && Releases(b.locks, locks', b.claims[id], now)
    ensures Backed(Take(b, id, locks'), now, gap)
  {
    LeaveKeepsLocks(b, now, id, Taken, locks');
    PhaseKeepsShut(b, id, Taken);
  }

  lemma QuitKeepsBacked(b: Board, now: int, gap: nat, id: nat, locks': Table)
    requires Backed(b, now, gap) && id < |b.claims|
    requires (b.claims[id].phase == Taken && locks' == b.locks) || Releases(b.locks, locks', b.claims[id], now)
    ensures Backed(Quit(b, id, locks'), now, gap)
  {
    LeaveKeepsLocks(b, now, id, Over, locks');
    PhaseKeepsShut(b, id, Over);
  }

  // ---- What may be done late -------------------------------------------------------------------------

  /** The booking's seats could be booked afresh: all available, none locked. */
  predicate SeatsFree(b: Board, now: int, c: Claim) {
    forall k :: k in c.seats ==> (k < |b.places| ==> b.places[k].available) && !Live(b.locks, Key(c.trip, k), now)
  }

  /** None of the booking's seats is taken, or locked by its own user. */
  predicate SeatsQuit(b: Board, now: int, c: Claim) {
    forall k :: k in c.seats ==>
      (k < |b.places| ==> b.places[k].available)
      && !(Live(b.locks, Key(c.trip, k), now) && b.locks[Key(c.trip, k)].owner == c.user)
  }

  /** Who else has a claim can be read off the seat rows and the locks. */
  lemma RivalSeen(b: Board, now: int, id: nat, i: nat, k: nat)
    requires Safe(b, now) && id < |b.claims| && i != id && Claims(b.claims, now, i, k) && k in b.claims[id].seats
    ensures k < |b.places| && !HasClaim(b.claims[id], now)
    ensures if b.claims[i].phase == Taken then !b.places[k].available
            else var key := Key(b.claims[id].trip, k);
                 Live(b.locks, key, now) && b.locks[key].owner == b.claims[i].user
  {
    assert PlacedIn(b.claims[i], b.places) && PlacedIn(b.claims[id], b.places);
    assert HasClaim(b.claims[id], now) ==> Claims(b.claims, now, id, k);
    if b.claims[i].phase == Held {
      assert Locked(b.locks, b.claims[i], k);
    }
  }

  /** A lapsed booking whose seat is taken or locked has a rival. */
  lemma RivalOf(b: Board, now: int, gap: nat, id: nat, k: nat) returns (i: nat)
    requires Backed(b, now, gap) && id < |b.claims| && !HasClaim(b.claims[id], now) && k in b.claims[id].seats
    requires (k < |b.places| && !b.places[k].available) || Live(b.locks, Key(b.claims[id].trip, k), now)
    ensures i != id && Claims(b.claims, now, i, k)
    ensures if k < |b.places| && !b.places[k].available then b.claims[i].phase == Taken
            else b.claims[i].user == b.locks[Key(b.claims[id].trip, k)].owner
  {
    var key := Key(b.claims[id].trip, k);
    assert Names(b.claims, id, k);
    if k < |b.places| && !b.places[k].available {
      i :| TakesSeat(b.claims, i, k);
    } else {
      i :| 0 <= i < |b.claims| && Backs(b.claims[i], key.trip, k, b.locks[key]);
    }
  }

  /** Exactly when a payment keeps the invariant: the booking's own locks still live, or its seats could be booked
      afresh. Between the two lies the gap by which its window is stamped late. */
  lemma TakeKeepsSafeIff(b: Board, now: int, gap: nat, id: nat, locks': Table)
    requires Safe(b, now) && Backed(b, now, gap) && id < |b.claims|
    requires Releases(b.locks, locks', b.claims[id], now)
    ensures Safe(Take(b, id, locks'), now) <==> HasClaim(b.claims[id], now) || SeatsFree(b, now, b.claims[id])
  {
    var c := b.claims[id];
    if HasClaim(c, now) || SeatsFree(b, now, c) {
      forall i, k: nat | i != id && Claims(b.claims, now, i, k)
        ensures k !in c.seats
      {
        if k in c.seats {
          RivalSeen(b, now, id, i, k);
        }
      }
      TakeKeepsSafe(b, now, id, locks');
    } else {
      var k :| k in c.seats && ((k < |b.places| && !b.places[k].available) || Live(b.locks, Key(c.trip, k), now));
      var i := RivalOf(b, now, gap, id, k);
      TakeBreaksSafe(b, now, id, locks');
    }
  }

  /** Exactly when an owner-checked cancellation keeps it: the booking still has its claim, or nobody has taken its
      seats and its user has not locked them again. */
  lemma QuitKeepsSafeIff(b: Board, now: int, gap: nat, id: nat, locks': Table)
    requires Safe(b, now) && Backed(b, now, gap) && id < |b.claims|
    requires Releases(b.locks, locks', b.claims[id], now) && SparesOthers(b.locks, locks', b.claims[id])
    ensures Safe(Quit(b, id, locks'), now) <==> HasClaim(b.claims[id], now) || SeatsQuit(b, now, b.claims[id])
  {
    var c := b.claims[id];
    if HasClaim(c, now) || SeatsQuit(b, now, c) {
      forall i, k: nat | i != id && Claims(b.claims, now, i, k) && k in c.seats
        ensures b.claims[i].phase == Held && b.claims[i].user != c.user
      {
        RivalSeen(b, now, id, i, k);
      }
      QuitKeepsSafe(b, now, id, locks');
    } else {
      var k :| k in c.seats && ((k < |b.places| && !b.places[k].available)
                                || (Live(b.locks, Key(c.trip, k), now) && b.locks[Key(c.trip, k)].owner == c.user));
      var i := RivalOf(b, now, gap, id, k);
      QuitBreaksSafe(b, now, id, locks');
    }
  }

  /** Nobody's claim lapses before the gap from the end of the window it shows. */
  lemma InTimeHasClaim(b: Board, now: int, gap: nat, id: nat)
    requires Stamped(b.claims, gap) && id < |b.claims| && b.claims[id].phase == Held
    requires now + gap <= b.claims[id].expiresAt
    ensures HasClaim(b.claims[id], now)
  {
  }

  /** In a safe state no seat is taken twice. */
  lemma SafeIsExclusive(b: Board, now: int, i: nat, j: nat, k: nat)
    requires Safe(b, now) && TakesSeat(b.claims, i, k) && TakesSeat(b.claims, j, k)
    ensures i == j
  {
    assert Claims(b.claims, now, i, k) && Claims(b.claims, now, j, k);
  }
}
