/** Any number of LockSeats calls on one trip, interleaved one Redis command at a time. */
module LockInterleaving {
  import opened Collections
  import opened Runs

  /** How a failed call takes its claims back: the bus seat by seat and owner checked, the train in one
      unconditional batch. */
  datatype Rollback = PerSeat | Batch

  /** Where a call stands: next seat to claim, rollback progress over the first upto seats, or ended. */
  datatype Phase = Claiming(next: nat) | Undoing(done: nat, upto: nat) | Won | Lost

  datatype Call = Call(user: nat, seats: seq<nat>, phase: Phase)
  {
    predicate Ok() {
      match phase
      case Claiming(n) => n <= |seats|
      case Undoing(j, n) => j <= n <= |seats|
      case _ => true
    }

    predicate Ended() { phase.Won? || phase.Lost? }

    /** The seats this call has claimed and not taken back. */
    function Held(): seq<nat>
      requires Ok()
    {
      match phase
      case Claiming(n) => seats[..n]
      case Undoing(j, n) => seats[j..n]
      case Won => seats
      case Lost => []
    }

    /** Commands still to issue, at most. */
    function Remaining(): nat
      requires Ok()
    {
      match phase
      case Claiming(n) => 2 * |seats| + 2 - n
      case Undoing(j, n) => 1 + n - j
      case _ => 0
    }
  }

  datatype World = World(table: map<nat, nat>, calls: seq<Call>)

  predicate Ok(w: World) {
    forall i :: 0 <= i < |w.calls| ==> w.calls[i].Ok()
  }

  /** One command of one call (fault: Redis answers this claim with an error), or the expiry of a lock. */
  datatype Event = Command(call: nat, fault: bool) | Vanish(seat: nat)

  function Claim(w: World, i: nat, fault: bool): World
    requires i < |w.calls| && w.calls[i].phase.Claiming?
  {
    var c := w.calls[i];
    var n := c.phase.next;
    if n >= |c.seats| then w.(calls := w.calls[i := c.(phase := Won)])
    else if fault || c.seats[n] in w.table then w.(calls := w.calls[i := c.(phase := Undoing(0, n))])
    else World(w.table[c.seats[n] := c.user], w.calls[i := c.(phase := Claiming(n + 1))])
  }

  function Undo(mode: Rollback, w: World, i: nat): World
    requires i < |w.calls| && w.calls[i].phase.Undoing?
  {
    var c := w.calls[i];
    var Undoing(j, n) := c.phase;
    if j >= n || n > |c.seats| then w.(calls := w.calls[i := c.(phase := Lost)])
    else match mode
      case PerSeat =>
        var s := c.seats[j];
        World(if s in w.table && w.table[s] == c.user then w.table - {s} else w.table,
              w.calls[i := c.(phase := Undoing(j + 1, n))])
      case Batch => World(w.table - SetOf(c.seats[j..n]), w.calls[i := c.(phase := Lost)])
  }

  function Step(mode: Rollback, w: World, e: Event): World {
    match e
    case Vanish(s) => w.(table := w.table - {s})
    case Command(i, fault) =>
      if i >= |w.calls| then w
      else match w.calls[i].phase
        case Claiming(_) => Claim(w, i, fault)
        case Undoing(_, _) => Undo(mode, w, i)
        case _ => w
  }

  /** All calls are about to issue their first command on this table. */
  predicate Start(init: map<nat, nat>, w: World) {
    w.table == init && forall i :: 0 <= i < |w.calls| ==> w.calls[i].phase == Claiming(0)
  }

  predicate HeldBy(w: World, i: int, s: nat) {
    0 <= i < |w.calls| && w.calls[i].Ok() && s in w.calls[i].Held()
  }

  ghost predicate HeldOnce(w: World)
    requires Ok(w)
  {
    && (forall i :: 0 <= i < |w.calls| ==> NoDup(w.calls[i].Held()))
    && (forall i, j, s: nat :: HeldBy(w, i, s) && HeldBy(w, j, s) ==> i == j)
  }

  ghost predicate TableCovers(init: map<nat, nat>, w: World) {
    && (forall i, s: nat :: HeldBy(w, i, s) ==> s in w.table && w.table[s] == w.calls[i].user && s !in init)
    && (forall s :: s in init ==> s in w.table && w.table[s] == init[s])
  }

  ghost predicate NothingStray(init: map<nat, nat>, w: World) {
    forall s: nat :: s in w.table && s !in init ==> exists i :: HeldBy(w, i, s)
  }

  /** The table is the initial one plus what each call holds, and no seat is held twice. */
  ghost predicate Accounted(init: map<nat, nat>, w: World) {
    Ok(w) && HeldOnce(w) && TableCovers(init, w) && NothingStray(init, w)
  }

  /** What one command does to its own call: nothing but the phase, and the held seats by one at most. */
  lemma ClaimHeld(w: World, i: nat, fault: bool)
    requires Ok(w) && i < |w.calls| && w.calls[i].phase.Claiming?
    ensures var w' := Claim(w, i, fault); var c := w.calls[i];
            Ok(w') && if w'.table == w.table then w'.calls[i].Held() == c.Held()
                      else var x := c.seats[c.phase.next];
                           w'.calls[i].Held() == c.Held() + [x] && x !in w.table && w'.table == w.table[x := c.user]
  {
    var c := w.calls[i];
    var w' := Claim(w, i, fault);
    var n := c.phase.next;
    if n == |c.seats| {
      assert c.seats[..n] == c.seats;
    } else if fault || c.seats[n] in w.table {
      assert c.seats[0..n] == c.seats[..n];
    } else {
      assert c.seats[..n + 1] == c.seats[..n] + [c.seats[n]];
      assert c.seats[n] in w'.table;
    }
  }

  lemma ClaimKeeps(init: map<nat, nat>, w: World, i: nat, fault: bool)
    requires Accounted(init, w) && i < |w.calls| && w.calls[i].phase.Claiming?
    ensures Accounted(init, Claim(w, i, fault))
  {
    ClaimHeld(w, i, fault);
    var w' := Claim(w, i, fault);
    var c := w.calls[i];
    if w'.table == w.table {
      assert forall j, s: nat :: HeldBy(w', j, s) <==> HeldBy(w, j, s);
    } else {
      var x := c.seats[c.phase.next];
      forall j, s: nat
        ensures HeldBy(w', j, s) <==> HeldBy(w, j, s) || (j == i && s == x)
      {
      }
      NewHolding(init, w, w', i, x);
    }
  }

  /** One call taking a seat nobody had keeps the accounts. */
  lemma NewHolding(init: map<nat, nat>, w: World, w': World, i: nat, x: nat)
    requires Accounted(init, w) && Ok(w') && |w'.calls| == |w.calls| && i < |w.calls| && x !in w.table
    requires w'.table == w.table[x := w.calls[i].user]
    requires forall j :: 0 <= j < |w.calls| ==> w'.calls[j].user == w.calls[j].user && NoDup(w'.calls[j].Held())
    requires forall j, s: nat :: HeldBy(w', j, s) <==> HeldBy(w, j, s) || (j == i && s == x)
    ensures Accounted(init, w')
  {
    assert NothingStray(init, w') by {
      forall s | s in w'.table && s !in init
        ensures exists j :: HeldBy(w', j, s)
      {
        if s == x {
          assert HeldBy(w', i, s);
        } else {
          var j :| HeldBy(w, j, s);
          assert HeldBy(w', j, s);
        }
      }
    }
  }

  /** A rollback command removes from the table exactly the seats its call stops holding. */
  lemma UndoHeld(mode: Rollback, w: World, i: nat)
    requires Ok(w) && i < |w.calls| && w.calls[i].phase.Undoing? && NoDup(w.calls[i].Held())
    requires forall s :: s in w.calls[i].Held() ==> s in w.table && w.table[s] == w.calls[i].user
    ensures var w' := Undo(mode, w, i); var held, held' := w.calls[i].Held(), w'.calls[i].Held();
            Ok(w') && NoDup(held') && SetOf(held') <= SetOf(held)
            && w'.table == w.table - (SetOf(held) - SetOf(held'))
  {
    var c := w.calls[i];
    var Undoing(j, n) := c.phase;
    if j < n {
      var held := c.seats[j..n];
      assert held == [c.seats[j]] + c.seats[j + 1..n];
      if mode == PerSeat {
        UndoneSeat(held);
        assert held[1..] == c.seats[j + 1..n];
      } else {
        assert SetOf(held) - SetOf([]) == SetOf(held);
      }
    }
  }

  lemma UndoneSeat(held: seq<nat>)
    requires NoDup(held) && held != []
    ensures NoDup(held[1..]) && SetOf(held) - SetOf(held[1..]) == {held[0]} && SetOf(held[1..]) <= SetOf(held)
  {
    assert held == [held[0]] + held[1..];
    assert held[0] !in held[1..];
  }

  lemma UndoKeeps(mode: Rollback, init: map<nat, nat>, w: World, i: nat)
    requires Accounted(init, w) && i < |w.calls| && w.calls[i].phase.Undoing?
    ensures Accounted(init, Undo(mode, w, i))
  {
    forall s | s in w.calls[i].Held()
      ensures s in w.table && w.table[s] == w.calls[i].user
    {
      assert HeldBy(w, i, s);
    }
    UndoHeld(mode, w, i);
    var w' := Undo(mode, w, i);
    forall j, s: nat
      ensures HeldBy(w', j, s) <==> HeldBy(w, j, s) && (j == i ==> s in w'.calls[i].Held())
    {
    }
    LessHolding(init, w, w', i);
  }

  /** One call dropping seats together with their table entries keeps the accounts. */
  lemma LessHolding(init: map<nat, nat>, w: World, w': World, i: nat)
    requires Accounted(init, w) && Ok(w') && |w'.calls| == |w.calls| && i < |w.calls|
    requires forall j :: 0 <= j < |w.calls| ==> w'.calls[j].user == w.calls[j].user && NoDup(w'.calls[j].Held())
    requires forall j, s: nat :: HeldBy(w', j, s) <==> HeldBy(w, j, s) && (j == i ==> s in w'.calls[i].Held())
    requires w'.table == w.table - (SetOf(w.calls[i].Held()) - SetOf(w'.calls[i].Held()))
    ensures Accounted(init, w')
  {
    assert forall s :: s in w.table && s !in w'.table ==> HeldBy(w, i, s) && !HeldBy(w', i, s);
    forall j, s: nat | HeldBy(w', j, s)
      ensures s in w'.table
    {
      assert HeldBy(w, j, s);
    }
    assert NothingStray(init, w') by {
      forall s | s in w'.table && s !in init
        ensures exists j :: HeldBy(w', j, s)
      {
        var j :| HeldBy(w, j, s);
        assert HeldBy(w', j, s);
      }
    }
  }

  predicate NoExpiry(w: World, e: Event) {
    e.Command?
  }

  lemma StepKeeps(mode: Rollback, init: map<nat, nat>, w: World, e: Event)
    requires Accounted(init, w) && e.Command?
    ensures Accounted(init, Step(mode, w, e))
  {
    var i := e.call;
    if i < |w.calls| {
      match w.calls[i].phase
      case Claiming(_) => ClaimKeeps(init, w, i, e.fault);
      case Undoing(_, _) => UndoKeeps(mode, init, w, i);
      case _ =>
    }
  }

  function Stepper(mode: Rollback): (World, Event) -> World {
    (w, e) => Step(mode, w, e)
  }

  function Reach(mode: Rollback, w: World, evs: seq<Event>): World {
    Run(Stepper(mode), w, evs)
  }

  /** At every moment of every interleaving without expiry, nothing is held twice and nothing is stray. */
  lemma InterleavingAccounted(mode: Rollback, init: map<nat, nat>, w: World, evs: seq<Event>)
    requires Start(init, w)
    requires forall e :: e in evs ==> e.Command?
    ensures Accounted(init, Reach(mode, w, evs))
  {
    var step := Stepper(mode);
    var inv := w => Accounted(init, w);
    assert inv(w);
    forall w, e | inv(w) && NoExpiry(w, e)
      ensures inv(step(w, e))
    {
      StepKeeps(mode, init, w, e);
    }
    CommandsAdmitted(mode, w, evs);
    RunKeeps(step, NoExpiry, inv, w, evs);
  }

  lemma {:induction false} CommandsAdmitted(mode: Rollback, w: World, evs: seq<Event>)
    requires forall e :: e in evs ==> e.Command?
    ensures Admitted(Stepper(mode), NoExpiry, w, evs)
    decreases |evs|
  {
    if evs != [] {
      CommandsAdmitted(mode, Step(mode, w, evs[0]), evs[1..]);
    }
  }

  /** Successful callers never share a seat. */
  lemma WinnersDisjoint(mode: Rollback, init: map<nat, nat>, w: World, evs: seq<Event>, i: nat, j: nat)
    requires Start(init, w) && forall e :: e in evs ==> e.Command?
    requires i < |Reach(mode, w, evs).calls| && j < |Reach(mode, w, evs).calls| && i != j
    requires Reach(mode, w, evs).calls[i].phase.Won? && Reach(mode, w, evs).calls[j].phase.Won?
    ensures SetOf(Reach(mode, w, evs).calls[i].seats) !! SetOf(Reach(mode, w, evs).calls[j].seats)
  {
    InterleavingAccounted(mode, init, w, evs);
    var end := Reach(mode, w, evs);
    forall s | s in SetOf(end.calls[i].seats) && s in SetOf(end.calls[j].seats)
      ensures false
    {
      assert HeldBy(end, i, s) && HeldBy(end, j, s);
    }
  }

  /** Once all calls have ended the table is the initial one plus exactly the successful claims. */
  lemma FinalTable(mode: Rollback, init: map<nat, nat>, w: World, evs: seq<Event>)
    requires Start(init, w) && forall e :: e in evs ==> e.Command?
    requires forall i :: 0 <= i < |Reach(mode, w, evs).calls| ==> Reach(mode, w, evs).calls[i].Ended()
    ensures var end := Reach(mode, w, evs);
            && (forall s :: s in init ==> s in end.table && end.table[s] == init[s])
            && (forall s :: s !in init ==>
                 (s in end.table
                  <==> exists i :: 0 <= i < |end.calls| && end.calls[i].phase.Won? && s in end.calls[i].seats))
            && (forall i, s :: 0 <= i < |end.calls| && end.calls[i].phase.Won? && s in end.calls[i].seats ==>
                 s in end.table && end.table[s] == end.calls[i].user && s !in init)
  {
    InterleavingAccounted(mode, init, w, evs);
    var end := Reach(mode, w, evs);
    forall i, s | 0 <= i < |end.calls| && end.calls[i].phase.Won? && s in end.calls[i].seats
      ensures s in end.table && end.table[s] == end.calls[i].user && s !in init
    {
      assert HeldBy(end, i, s);
    }
    forall s | s !in init && s in end.table
      ensures exists i :: 0 <= i < |end.calls| && end.calls[i].phase.Won? && s in end.calls[i].seats
    {
      var i :| 0 <= i < |end.calls| && HeldBy(end, i, s);
      assert end.calls[i].Ended();
    }
  }

  /** Every command of an unfinished call brings it closer to its end, whatever the others do. */
  lemma CommandsFinish(mode: Rollback, w: World, i: nat, fault: bool)
    requires Ok(w) && i < |w.calls| && !w.calls[i].Ended()
    ensures Ok(Step(mode, w, Command(i, fault)))
    ensures Step(mode, w, Command(i, fault)).calls[i].Remaining() < w.calls[i].Remaining()
    ensures forall j :: 0 <= j < |w.calls| && j != i ==> Step(mode, w, Command(i, fault)).calls[j] == w.calls[j]
  {
    if w.calls[i].phase.Claiming? {
      ClaimHeld(w, i, fault);
    }
  }

  /** Bus: whatever expires and whatever was interleaved, a command only ever deletes its own user's lock. */
  lemma PerSeatDeletesOwnOnly(w: World, i: nat, fault: bool, s: nat)
    requires i < |w.calls| && s in w.table && w.table[s] != w.calls[i].user
    ensures s in Step(PerSeat, w, Command(i, fault)).table
    ensures Step(PerSeat, w, Command(i, fault)).table[s] == w.table[s]
  {
    match w.calls[i].phase
    case Claiming(n) =>
    case Undoing(j, n) =>
      assert j < n && n <= |w.calls[i].seats| ==> w.calls[i].seats[j] != s || w.table[s] != w.calls[i].user;
    case _ =>
  }

  // ---- Expiry during the calls -----------------------------------------------------------------------

  /** Position p of call i's list is seat s, claimed and not taken back. */
  predicate HasAt(w: World, i: int, p: int, s: nat) {
    && 0 <= i < |w.calls| && 0 <= p < |w.calls[i].seats| && w.calls[i].seats[p] == s
    && match w.calls[i].phase
       case Claiming(n) => p < n
       case Undoing(j, n) => j <= p < n
       case Won => true
       case Lost => false
  }

  /** At most one call has the seat, once, and then the lock is its user's. */
  ghost predicate SeatOwned(w: World, s: nat) {
    && (forall i, p, j, q :: HasAt(w, i, p, s) && HasAt(w, j, q, s) ==> i == j && p == q)
    && (forall i, p :: HasAt(w, i, p, s) ==> s in w.table && w.table[s] == w.calls[i].user)
  }

  /** The lock of this seat does not expire while a call has the seat; any other lock may. */
  ghost predicate LastsWhileHad(w: World, e: Event, s: nat) {
    e == Vanish(s) ==> forall i, p :: !HasAt(w, i, p, s)
  }

  lemma ClaimKeepsOwned(w: World, i: nat, fault: bool, s: nat)
    requires Ok(w) && SeatOwned(w, s) && i < |w.calls| && w.calls[i].phase.Claiming?
    ensures SeatOwned(Claim(w, i, fault), s)
  {
    var w' := Claim(w, i, fault);
    var n := w.calls[i].phase.next;
    forall j, p | HasAt(w', j, p, s)
      ensures HasAt(w, j, p, s) || (j == i && p == n && s !in w.table && w'.table == w.table[s := w.calls[i].user])
    {
      assert j != i ==> HasAt(w, j, p, s);
    }
    assert forall j, p :: HasAt(w, j, p, s) ==> s in w.table;
  }

  /** Where a slice holds a seat. */
  lemma SliceIndex(seats: seq<nat>, j: nat, n: nat, s: nat) returns (q: nat)
    requires j <= n <= |seats| && s in seats[j..n]
    ensures j <= q < n && seats[q] == s
  {
    q :| j <= q < n && seats[q] == s;
  }

  lemma UndoKeepsOwned(mode: Rollback, w: World, i: nat, s: nat)
    requires Ok(w) && SeatOwned(w, s) && i < |w.calls| && w.calls[i].phase.Undoing?
    ensures SeatOwned(Undo(mode, w, i), s)
  {
    var c, w' := w.calls[i], Undo(mode, w, i);
    var Undoing(j, n) := c.phase;
    forall k, p | HasAt(w', k, p, s)
      ensures HasAt(w, k, p, s) && s in w'.table
    {
      assert HasAt(w, k, p, s);
      if s !in w'.table {
        var q := j;
        if mode == Batch {
          q := SliceIndex(c.seats, j, n, s);
        }
        assert HasAt(w, i, q, s);
      }
    }
  }

  lemma StepKeepsOwned(mode: Rollback, w: World, e: Event, s: nat)
    requires Ok(w) && SeatOwned(w, s) && LastsWhileHad(w, e, s)
    ensures Ok(Step(mode, w, e)) && SeatOwned(Step(mode, w, e), s)
  {
    match e
    case Vanish(x) =>
      var w' := Step(mode, w, e);
      assert forall i, p :: HasAt(w', i, p, s) <==> HasAt(w, i, p, s);
    case Command(i, fault) =>
      if i < |w.calls| {
        match w.calls[i].phase
        case Claiming(_) => ClaimKeepsOwned(w, i, fault, s);
        case Undoing(_, _) => UndoKeepsOwned(mode, w, i, s);
        case _ =>
      }
  }
  ghost function SeatLasts(s: nat): (World, Event) -> bool {
    (w: World, e: Event) => LastsWhileHad(w, e, s)
  }

  /** A rollback or claim in this state leaves another user's lock on the seat as it is. */
  lemma OwnedSeatSpared(mode: Rollback, w: World, i: nat, fault: bool, s: nat)
    requires Ok(w) && SeatOwned(w, s) && s in w.table && i < |w.calls| && w.table[s] != w.calls[i].user
    ensures var w' := Step(mode, w, Command(i, fault)); s in w'.table && w'.table[s] == w.table[s]
  {
    match w.calls[i].phase
    case Undoing(j, n) =>
      if mode == PerSeat {
        PerSeatDeletesOwnOnly(w, i, fault, s);
      } else if j < n && s in w.calls[i].seats[j..n] {
        var q := SliceIndex(w.calls[i].seats, j, n, s);
        assert HasAt(w, i, q, s);
      }
    case _ =>
  }

  /** Over every run of calls, with any expiries elsewhere: while no lock of this seat expires in the hands of a
      call that has it, no command of either version deletes or changes another user's lock of the seat. */
  lemma RollbackSparesOthers(mode: Rollback, init: map<nat, nat>, w: World, evs: seq<Event>, i: nat, fault: bool,
                             s: nat)
    requires Start(init, w) && Admitted(Stepper(mode), SeatLasts(s), w, evs)
    requires var end := Reach(mode, w, evs); i < |end.calls| && s in end.table && end.table[s] != end.calls[i].user
    ensures var end := Reach(mode, w, evs); var end' := Step(mode, end, Command(i, fault));
            s in end'.table && end'.table[s] == end.table[s]
  {
    OwnedThroughout(mode, init, w, evs, s);
    OwnedSeatSpared(mode, Reach(mode, w, evs), i, fault, s);
  }

  lemma OwnedThroughout(mode: Rollback, init: map<nat, nat>, w: World, evs: seq<Event>, s: nat)
    requires Start(init, w) && Admitted(Stepper(mode), SeatLasts(s), w, evs)
    ensures Ok(Reach(mode, w, evs)) && SeatOwned(Reach(mode, w, evs), s)
  {
    var inv := (w: World) => Ok(w) && SeatOwned(w, s);
    forall w, e | inv(w) && SeatLasts(s)(w, e)
      ensures inv(Stepper(mode)(w, e))
    {
      StepKeepsOwned(mode, w, e, s);
    }
    RunKeeps(Stepper(mode), SeatLasts(s), inv, w, evs);
  }

  /** And two callers never both win it. */
  lemma SeatWonOnce(mode: Rollback, init: map<nat, nat>, w: World, evs: seq<Event>, i: nat, j: nat, s: nat)
    requires Start(init, w) && Admitted(Stepper(mode), SeatLasts(s), w, evs)
    requires var end := Reach(mode, w, evs);
             && i < |end.calls| && end.calls[i].phase.Won? && s in end.calls[i].seats
             && j < |end.calls| && end.calls[j].phase.Won? && s in end.calls[j].seats
    ensures i == j
    ensures s in Reach(mode, w, evs).table && Reach(mode, w, evs).table[s] == Reach(mode, w, evs).calls[i].user
  {
    OwnedThroughout(mode, init, w, evs, s);
    var end := Reach(mode, w, evs);
    var p :| 0 <= p < |end.calls[i].seats| && end.calls[i].seats[p] == s;
    var q :| 0 <= q < |end.calls[j].seats| && end.calls[j].seats[q] == s;
    assert HasAt(end, i, p, s) && HasAt(end, j, q, s);
  }

  /** The events from which the lock of owner can come to be missing: its expiry or its owner's own commands. */
  predicate Touches(w: World, e: Event, s: nat, owner: nat) {
    e == Vanish(s) || (e.Command? && e.call < |w.calls| && w.calls[e.call].user == owner)
  }

  ghost predicate Untouched(mode: Rollback, w: World, s: nat, owner: nat, evs: seq<Event>)
    decreases |evs|
  {
    evs == [] || (!Touches(w, evs[0], s, owner) && Untouched(mode, Step(mode, w, evs[0]), s, owner, evs[1..]))
  }

  /** Bus, whatever expires: a lock stays until it expires or its owner acts. */
  lemma {:induction false} PerSeatLockSurvives(w: World, s: nat, evs: seq<Event>)
    requires s in w.table && Untouched(PerSeat, w, s, w.table[s], evs)
    ensures s in Reach(PerSeat, w, evs).table && Reach(PerSeat, w, evs).table[s] == w.table[s]
    decreases |evs|
  {
    if evs != [] {
      var e := evs[0];
      if e.Command? && e.call < |w.calls| {
        PerSeatDeletesOwnOnly(w, e.call, e.fault, s);
      }
      PerSeatLockSurvives(Step(PerSeat, w, e), s, evs[1..]);
    }
  }

  /** Either version, on a seat whose lock lasts while a call has it: the same. */
  lemma {:induction false} LockSurvives(mode: Rollback, w: World, s: nat, evs: seq<Event>)
    requires Ok(w) && SeatOwned(w, s) && Admitted(Stepper(mode), SeatLasts(s), w, evs)
    requires s in w.table && Untouched(mode, w, s, w.table[s], evs)
    ensures s in Reach(mode, w, evs).table && Reach(mode, w, evs).table[s] == w.table[s]
    decreases |evs|
  {
    if evs != [] {
      var e := evs[0];
      if e.Command? && e.call < |w.calls| {
        OwnedSeatSpared(mode, w, e.call, e.fault, s);
      }
      StepKeepsOwned(mode, w, e, s);
      LockSurvives(mode, Step(mode, w, e), s, evs[1..]);
    }
  }

  /** Two calls for seat 5 beside a lock of user 7, at the given phases. */
  function TwoCalls(table: map<nat, nat>, first: Phase, second: Phase): World {
    World(table, [Call(1, [5, 9], first), Call(2, [5], second)])
  }

  const LAPSE: seq<Event> := [Command(0, false), Vanish(5), Command(1, false), Command(1, false)]

  /** User 1's lock lapses and user 2 takes the seat. */
  lemma LapsedAndRetaken(step: (World, Event) -> World)
    requires step == Stepper(Batch)
    ensures Run(step, TwoCalls(map[9 := 7], Claiming(0), Claiming(0)), LAPSE)
         == TwoCalls(map[9 := 7, 5 := 2], Claiming(1), Won)
  {
    var w0, w1 := TwoCalls(map[9 := 7], Claiming(0), Claiming(0)),
                  TwoCalls(map[9 := 7, 5 := 1], Claiming(1), Claiming(0));
    var w2, w3 := TwoCalls(map[9 := 7], Claiming(1), Claiming(0)),
                  TwoCalls(map[9 := 7, 5 := 2], Claiming(1), Claiming(1));
    assert step(w0, LAPSE[0]) == w1;
    assert step(w1, LAPSE[1]) == w2;
    assert step(w2, LAPSE[2]) == w3;
    assert step(w3, LAPSE[3]) == TwoCalls(map[9 := 7, 5 := 2], Claiming(1), Won);
    FourSteps(step, w0, w1, w2, w3, TwoCalls(map[9 := 7, 5 := 2], Claiming(1), Won),
              LAPSE[0], LAPSE[1], LAPSE[2], LAPSE[3]);
  }

  /** Train: the demand is needed. User 1's lock lapses, user 2 wins the seat, and user 1's rollback frees it. */
  lemma BatchDeletesForeignLock()
    ensures var w := TwoCalls(map[9 := 7], Claiming(0), Claiming(0));
            var undo := [Command(0, false), Command(0, false)];
            Start(map[9 := 7], w)
            && 5 in Reach(Batch, w, LAPSE).table && Reach(Batch, w, LAPSE).table[5] == 2
            && Reach(Batch, w, LAPSE).calls[1].phase.Won? && 5 !in Reach(Batch, w, LAPSE + undo).table
  {
    var step, undo := Stepper(Batch), Command(0, false);
    var w4, w5 := TwoCalls(map[9 := 7, 5 := 2], Claiming(1), Won), TwoCalls(map[9 := 7, 5 := 2], Undoing(0, 1), Won);
    LapsedAndRetaken(step);
    assert step(w4, undo) == w5;
    assert [5, 9][0..1] == [5];
    assert 5 !in step(w5, undo).table;
    TwoMore(step, TwoCalls(map[9 := 7], Claiming(0), Claiming(0)), LAPSE, w4, w5, step(w5, undo), undo, undo);
  }

  // ---- A call on its own -----------------------------------------------------------------------------

  /** k commands of call i, nobody else acting and Redis answering. */
  function Solo(mode: Rollback, w: World, i: nat, k: nat): World
    decreases k
  {
    if k == 0 then w else Solo(mode, Step(mode, w, Command(i, false)), i, k - 1)
  }

  function ClaimedBy(t: map<nat, nat>, seats: seq<nat>, user: nat): map<nat, nat> {
    if seats == [] then t else ClaimedBy(t, seats[..|seats| - 1], user)[seats[|seats| - 1] := user]
  }

  lemma {:induction false} ClaimedByExactly(t: map<nat, nat>, seats: seq<nat>, user: nat)
    ensures var r := ClaimedBy(t, seats, user);
            r.Keys == t.Keys + SetOf(seats) && forall s :: s in r ==> r[s] == if s in seats then user else t[s]
    decreases |seats|
  {
    if seats != [] {
      var n := |seats| - 1;
      assert seats == seats[..n] + [seats[n]];
      ClaimedByExactly(t, seats[..n], user);
    }
  }

  predicate Grants(t: map<nat, nat>, seats: seq<nat>) {
    NoDup(seats) && forall s :: s in seats ==> s !in t
  }

  /** Taking the first of the claimed seats back. */
  lemma UnclaimFirst(t: map<nat, nat>, seats: seq<nat>, user: nat)
    requires seats != [] && Grants(t, seats)
    ensures seats[0] in ClaimedBy(t, seats, user) && ClaimedBy(t, seats, user)[seats[0]] == user
    ensures ClaimedBy(t, seats, user) - {seats[0]} == ClaimedBy(t, seats[1..], user) && Grants(t, seats[1..])
  {
    assert seats == [seats[0]] + seats[1..];
    UndoneSeat(seats);
    ClaimedByExactly(t, seats, user);
    ClaimedByExactly(t, seats[1..], user);
  }

  /** Taking all of them back at once. */
  lemma UnclaimAll(t: map<nat, nat>, seats: seq<nat>, user: nat)
    requires Grants(t, seats)
    ensures ClaimedBy(t, seats, user) - SetOf(seats) == t
  {
    ClaimedByExactly(t, seats, user);
  }

  lemma {:induction false} SoloUndo(mode: Rollback, w: World, i: nat, t: map<nat, nat>) returns (k: nat)
    requires i < |w.calls| && w.calls[i].phase.Undoing? && w.calls[i].Ok()
    requires var c := w.calls[i]; var held := c.seats[c.phase.done..c.phase.upto];
             Grants(t, held) && w.table == ClaimedBy(t, held, c.user)
    ensures Solo(mode, w, i, k) == World(t, w.calls[i := w.calls[i].(phase := Lost)])
    decreases w.calls[i].phase.upto - w.calls[i].phase.done
  {
    var c := w.calls[i];
    var Undoing(j, n) := c.phase;
    var w' := Step(mode, w, Command(i, false));
    if j == n {
      k := 1;
      assert Solo(mode, w', i, 0) == w';
    } else {
      var held := c.seats[j..n];
      if mode == Batch {
        UnclaimAll(t, held, c.user);
        k := 1;
        assert Solo(mode, w', i, 0) == w';
      } else {
        UnclaimFirst(t, held, c.user);
        assert held[1..] == c.seats[j + 1..n];
        var k' := SoloUndo(mode, w', i, t);
        k := k' + 1;
      }
    }
  }

  /** The world once call i has ended, t being the table without its claims. */
  function Outcome(w: World, i: nat, t: map<nat, nat>): World
    requires i < |w.calls|
  {
    var c := w.calls[i];
    if Grants(t, c.seats) then World(ClaimedBy(t, c.seats, c.user), w.calls[i := c.(phase := Won)])
    else World(t, w.calls[i := c.(phase := Lost)])
  }

  /** Call i has claimed its first seats on t and nothing else has happened. */
  predicate HasClaimed(w: World, i: nat, t: map<nat, nat>) {
    i < |w.calls| && w.calls[i].phase.Claiming? && w.calls[i].Ok()
    && var c := w.calls[i]; var held := c.seats[..c.phase.next];
       Grants(t, held) && w.table == ClaimedBy(t, held, c.user)
  }

  /** One more command when every seat is claimed. */
  lemma ClaimWins(mode: Rollback, w: World, i: nat, t: map<nat, nat>)
    requires HasClaimed(w, i, t) && w.calls[i].phase.next == |w.calls[i].seats|
    ensures Step(mode, w, Command(i, false)) == Outcome(w, i, t)
  {
    assert w.calls[i].seats[..w.calls[i].phase.next] == w.calls[i].seats;
  }

  /** One more command when the next seat is held: the call will not be granted. */
  lemma ClaimStops(mode: Rollback, w: World, i: nat, t: map<nat, nat>)
    requires HasClaimed(w, i, t) && w.calls[i].phase.next < |w.calls[i].seats|
             && w.calls[i].seats[w.calls[i].phase.next] in w.table
    ensures Step(mode, w, Command(i, false))
            == w.(calls := w.calls[i := w.calls[i].(phase := Undoing(0, w.calls[i].phase.next))])
    ensures !Grants(t, w.calls[i].seats)
  {
    var c := w.calls[i];
    ClaimedByExactly(t, c.seats[..c.phase.next], c.user);
    BlockedSeat(t, c.seats, c.phase.next);
  }

  /** One more command when the next seat is free. */
  lemma ClaimGrows(mode: Rollback, w: World, i: nat, t: map<nat, nat>)
    requires HasClaimed(w, i, t) && w.calls[i].phase.next < |w.calls[i].seats|
             && w.calls[i].seats[w.calls[i].phase.next] !in w.table
    ensures HasClaimed(Step(mode, w, Command(i, false)), i, t)
    ensures Step(mode, w, Command(i, false)).calls
            == w.calls[i := w.calls[i].(phase := Claiming(w.calls[i].phase.next + 1))]
  {
    var c := w.calls[i];
    var n := c.phase.next;
    GrantsOneMore(t, c.seats, n, c.user);
  }

  lemma GrantsOneMore(t: map<nat, nat>, seats: seq<nat>, n: nat, user: nat)
    requires n < |seats| && Grants(t, seats[..n]) && seats[n] !in ClaimedBy(t, seats[..n], user)
    ensures Grants(t, seats[..n + 1])
            && ClaimedBy(t, seats[..n + 1], user) == ClaimedBy(t, seats[..n], user)[seats[n] := user]
  {
    ClaimedByExactly(t, seats[..n], user);
    NoDupSnoc(seats[..n], seats[n]);
    assert seats[..n + 1] == seats[..n] + [seats[n]] && seats[..n + 1][..n] == seats[..n];
  }

  lemma {:induction false} SoloClaim(mode: Rollback, w: World, i: nat, t: map<nat, nat>) returns (k: nat)
    requires HasClaimed(w, i, t)
    ensures Solo(mode, w, i, k) == Outcome(w, i, t)
    decreases |w.calls[i].seats| - w.calls[i].phase.next
  {
    var c := w.calls[i];
    var n := c.phase.next;
    var w' := Step(mode, w, Command(i, false));
    if n == |c.seats| {
      ClaimWins(mode, w, i, t);
      k := 1;
      assert Solo(mode, w', i, 0) == w';
    } else if c.seats[n] in w.table {
      ClaimStops(mode, w, i, t);
      assert c.seats[0..n] == c.seats[..n];
      var k' := SoloUndo(mode, w', i, t);
      k := k' + 1;
    } else {
      ClaimGrows(mode, w, i, t);
      var k' := SoloClaim(mode, w', i, t);
      k := k' + 1;
    }
  }

  lemma BlockedSeat(t: map<nat, nat>, seats: seq<nat>, n: nat)
    requires n < |seats| && (seats[n] in t || seats[n] in seats[..n])
    ensures !Grants(t, seats)
  {
    if seats[n] in seats[..n] {
      var j :| 0 <= j < n && seats[..n][j] == seats[n];
      assert seats[j] == seats[n];
    }
  }

  /** Left alone, a call's commands amount to the whole claim: all its seats if none is held and none repeats,
      otherwise nothing, with either rollback. */
  lemma SoloCall(mode: Rollback, w: World, i: nat) returns (k: nat)
    requires i < |w.calls| && w.calls[i].phase == Claiming(0)
    ensures Solo(mode, w, i, k) == Outcome(w, i, w.table)
  {
    k := SoloClaim(mode, w, i, w.table);
  }
}
