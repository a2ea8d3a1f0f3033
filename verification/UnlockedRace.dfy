/** The same race with the row lock left out: what the unique index on (room_id, side, slot) guarantees by itself
    (migrations/000004_rooms.up.sql:85-91, internal/rooms/repository.go:33-44). */
module UnlockedRace {
  import opened Basics
  import opened Turns
  import opened Rooms

  /** A joiner that takes no row lock: it reads the rows, inserts under the unique index, and commits. */
  datatype Racer =
    | Entering
    | Read(seen: Members)
    | Holding(seat: Seat)   // inserted, not committed; others inserting the same seat wait
    | Admitted
    | TurnedAway            // with ErrRoomFull
    | GaveUp

  /** The committed rows, and the racers by user. */
  datatype Race = Race(members: Members, racers: map<Id, Racer>)

  datatype Choice = Advance(user: Id) | Abort(user: Id)

  ghost predicate Held(racers: map<Id, Racer>, seat: Seat) {
    exists u :: u in racers && racers[u] == Holding(seat)
  }

  ghost function Insert(order: seq<Seat>, r: Race, seen: Members): Racer {
    match FirstFree(order, seen)
    case None => TurnedAway
    case Some(seat) =>
      if Taken(r.members, seat) then TurnedAway
      else if Held(r.racers, seat) then Read(seen)
      else Holding(seat)
  }

  ghost function Move(order: seq<Seat>, r: Race, c: Choice): Race {
    if c.user !in r.racers then r
    else match r.racers[c.user]
      case Entering => r.(racers := r.racers[c.user := if c.Abort? then GaveUp else Read(r.members)])
      case Read(seen) => r.(racers := r.racers[c.user := if c.Abort? then GaveUp else Insert(order, r, seen)])
      case Holding(seat) =>
        if c.Abort? then r.(racers := r.racers[c.user := GaveUp])
        else Race(r.members[c.user := Member(seat, false, 0)], r.racers[c.user := Admitted])
      case _ => r
  }

  ghost function Run(order: seq<Seat>, r: Race, schedule: seq<Choice>): Race
    decreases |schedule|
  {
    if schedule == [] then r else Run(order, Move(order, r, schedule[0]), schedule[1..])
  }

  ghost function Winners(racers: map<Id, Racer>): set<Id> {
    set u | u in racers && racers[u] == Admitted
  }

  /** Rows with distinct seats, all of them seats the room has. */
  ghost predicate Seated(all: set<Seat>, ms: Members) {
    DistinctSeats(ms) && forall u :: u in ms ==> ms[u].seat in all
  }

  ghost predicate Extends(big: Members, small: Members) {
    forall v :: v in small ==> v in big && big[v].seat == small[v].seat
  }

  /** What holds of one racer, given the rows `m0` before the race and the rows committed now. */
  ghost predicate RacerOk(all: set<Seat>, m0: Members, ms: Members, st: Racer) {
    match st
    case Read(seen) => Extends(ms, seen) && Extends(seen, m0) && Seated(all, seen)
    case Holding(seat) => seat in all && !Taken(ms, seat)
    case TurnedAway => |ms| > |m0|
    case _ => true
  }

  ghost predicate RacersOk(all: set<Seat>, m0: Members, ms: Members, racers: map<Id, Racer>) {
    forall u :: u in racers ==> RacerOk(all, m0, ms, racers[u])
  }

  ghost predicate HoldApart(racers: map<Id, Racer>) {
    forall u, v | u in racers && v in racers && racers[u].Holding? && racers[v] == racers[u] :: u == v
  }

  ghost predicate Inv(all: set<Seat>, m0: Members, r: Race) {
    && Seated(all, r.members) && Extends(r.members, m0)
    && m0.Keys !! r.racers.Keys
    && r.members.Keys == m0.Keys + Winners(r.racers)
    && HoldApart(r.racers)
    && RacersOk(all, m0, r.members, r.racers)
  }

  lemma FullWhenEverySeatTaken(all: set<Seat>, ms: Members)
    requires Seated(all, ms)
    ensures |ms| <= |all|
    ensures (forall seat :: seat in all ==> Taken(ms, seat)) ==> |ms| == |all|
  {
    SeatsTakenSize(ms);
    SubsetSize(SeatsTaken(ms), all);
    if forall seat :: seat in all ==> Taken(ms, seat) {
      forall seat | seat in all ensures seat in SeatsTaken(ms) {
        assert Taken(ms, seat);
      }
      assert SeatsTaken(ms) == all;
    }
  }

  lemma MoreRows(big: Members, small: Members, m0: Members)
    requires Extends(big, small) && Extends(small, m0) && (|small| > |m0| || exists v :: v in big && v !in small)
    ensures |big| > |m0|
  {
    SubsetSize(small.Keys, big.Keys);
    SubsetSize(m0.Keys, small.Keys);
  }

  /** Whoever is turned away lost to somebody admitted since the race began. */
  lemma InsertOk(order: seq<Seat>, m0: Members, r: Race, seen: Members)
    requires |m0| < |Elements(order)| && RacerOk(Elements(order), m0, r.members, Read(seen))
    ensures RacerOk(Elements(order), m0, r.members, Insert(order, r, seen))
    ensures Insert(order, r, seen).Holding? ==> forall w :: w in r.racers ==> r.racers[w] != Insert(order, r, seen)
  {
    FirstFreeIsFree(order, seen);
    FullWhenEverySeatTaken(Elements(order), seen);
    var free := FirstFree(order, seen);
    if free.Some? && Taken(r.members, free.value) {
      var v :| v in r.members && r.members[v].seat == free.value;
      assert v !in seen;
    }
    if Insert(order, r, seen).TurnedAway? {
      MoreRows(r.members, seen, m0);
    }
  }

  /** A racer's own move that commits nothing. */
  lemma SameWinners(racers: map<Id, Racer>, u: Id, st: Racer)
    requires u in racers && racers[u] != Admitted && st != Admitted
    ensures Winners(racers[u := st]) == Winners(racers)
  {
  }

  lemma StillApart(racers: map<Id, Racer>, u: Id, st: Racer)
    requires HoldApart(racers) && u in racers
    requires st.Holding? ==> forall w :: w in racers ==> racers[w] != st
    ensures HoldApart(racers[u := st])
  {
  }

  lemma StepOk(all: set<Seat>, m0: Members, r: Race, u: Id, st: Racer)
    requires Inv(all, m0, r) && u in r.racers && r.racers[u] != Admitted && st != Admitted
    requires RacerOk(all, m0, r.members, st)
    requires st.Holding? ==> forall w :: w in r.racers ==> r.racers[w] != st
    ensures Inv(all, m0, r.(racers := r.racers[u := st]))
  {
    SameWinners(r.racers, u, st);
    StillApart(r.racers, u, st);
    assert r.racers[u := st].Keys == r.racers.Keys;
  }

  lemma OthersAfterCommit(all: set<Seat>, m0: Members, ms: Members, ms': Members, seat: Seat, st: Racer)
    requires RacerOk(all, m0, ms, st) && Extends(ms', ms) && |ms'| > |ms|
    requires forall v :: v in ms' ==> v in ms || ms'[v].seat == seat
    requires st.Holding? ==> st.seat != seat
    ensures RacerOk(all, m0, ms', st)
  {
    if st.Holding? {
      forall v | v in ms' ensures ms'[v].seat != st.seat {
        assert v in ms ==> Taken(ms, ms[v].seat);
      }
    }
  }

  lemma SeatedAfterCommit(all: set<Seat>, ms: Members, u: Id, seat: Seat)
    requires Seated(all, ms) && u !in ms && seat in all && !Taken(ms, seat)
    ensures var ms' := ms[u := Member(seat, false, 0)];
            Seated(all, ms') && Extends(ms', ms) && ms'.Keys == ms.Keys + {u} && |ms'| == |ms| + 1
  {
    var ms' := ms[u := Member(seat, false, 0)];
    assert forall v :: v in ms ==> ms'[v] == ms[v] && ms[v].seat != seat;
    assert ms'.Keys == ms.Keys + {u};
  }

  lemma OneMoreWinner(racers: map<Id, Racer>, u: Id)
    requires u in racers && racers[u] != Admitted && HoldApart(racers)
    ensures Winners(racers[u := Admitted]) == Winners(racers) + {u} && u !in Winners(racers)
    ensures HoldApart(racers[u := Admitted])
  {
  }

  lemma RacersAfterCommit(all: set<Seat>, m0: Members, r: Race, u: Id, seat: Seat, ms': Members)
    requires Inv(all, m0, r) && u in r.racers && r.racers[u] == Holding(seat)
    requires Extends(ms', r.members) && |ms'| > |r.members|
    requires forall v :: v in ms' ==> v in r.members || ms'[v].seat == seat
    ensures RacersOk(all, m0, ms', r.racers[u := Admitted])
  {
    var racers' := r.racers[u := Admitted];
    forall v | v in racers' ensures RacerOk(all, m0, ms', racers'[v]) {
      if v != u {
        assert RacerOk(all, m0, r.members, r.racers[v]);
        assert r.racers[v] != Holding(seat);
        OthersAfterCommit(all, m0, r.members, ms', seat, r.racers[v]);
      }
    }
  }

  lemma KeysAfterCommit(m0: Members, ms: Members, racers: map<Id, Racer>, u: Id, m: Member)
    requires ms.Keys == m0.Keys + Winners(racers) && u in racers && racers[u] != Admitted && HoldApart(racers)
    ensures ms[u := m].Keys == m0.Keys + Winners(racers[u := Admitted])
    ensures u !in m0 ==> u !in ms
  {
    OneMoreWinner(racers, u);
  }

  lemma CommitOk(all: set<Seat>, m0: Members, r: Race, u: Id, seat: Seat)
    requires Inv(all, m0, r) && u in r.racers && r.racers[u] == Holding(seat)
    ensures Inv(all, m0, Race(r.members[u := Member(seat, false, 0)], r.racers[u := Admitted]))
  {
    assert RacerOk(all, m0, r.members, Holding(seat));
    KeysAfterCommit(m0, r.members, r.racers, u, Member(seat, false, 0));
    SeatedAfterCommit(all, r.members, u, seat);
    ExtendsTwice(r.members[u := Member(seat, false, 0)], r.members, m0);
    OneMoreWinner(r.racers, u);
    RacersAfterCommit(all, m0, r, u, seat, r.members[u := Member(seat, false, 0)]);
  }

  lemma ExtendsTwice(a: Members, b: Members, c: Members)
    requires Extends(a, b) && Extends(b, c)
    ensures Extends(a, c)
  {
  }

  lemma EnterOk(all: set<Seat>, m0: Members, r: Race, u: Id)
    requires Inv(all, m0, r) && u in r.racers && r.racers[u] == Entering
    ensures Inv(all, m0, r.(racers := r.racers[u := Read(r.members)]))
  {
    StepOk(all, m0, r, u, Read(r.members));
  }

  lemma ReadMoveOk(order: seq<Seat>, m0: Members, r: Race, u: Id, seen: Members)
    requires |m0| < |Elements(order)| && Inv(Elements(order), m0, r) && u in r.racers && r.racers[u] == Read(seen)
    ensures Inv(Elements(order), m0, r.(racers := r.racers[u := Insert(order, r, seen)]))
  {
    assert RacerOk(Elements(order), m0, r.members, r.racers[u]);
    InsertOk(order, m0, r, seen);
    StepOk(Elements(order), m0, r, u, Insert(order, r, seen));
  }

  lemma MoveOk(order: seq<Seat>, m0: Members, r: Race, c: Choice)
    requires |m0| < |Elements(order)| && Inv(Elements(order), m0, r)
    ensures Inv(Elements(order), m0, Move(order, r, c))
  {
    if c.user in r.racers {
      var all, st := Elements(order), r.racers[c.user];
      if st.Admitted? || st.TurnedAway? || st.GaveUp? {
      } else if c.Abort? {
        StepOk(all, m0, r, c.user, GaveUp);
      } else if st.Entering? {
        EnterOk(all, m0, r, c.user);
      } else if st.Read? {
        ReadMoveOk(order, m0, r, c.user, st.seen);
      } else {
        CommitOk(all, m0, r, c.user, st.seat);
      }
    }
  }

  lemma MoveKeepsRacers(order: seq<Seat>, r: Race, c: Choice)
    ensures Move(order, r, c).racers.Keys == r.racers.Keys
  {
  }

  lemma {:induction false} RunOk(order: seq<Seat>, m0: Members, r: Race, schedule: seq<Choice>)
    requires |m0| < |Elements(order)| && Inv(Elements(order), m0, r)
    ensures Inv(Elements(order), m0, Run(order, r, schedule)) && Run(order, r, schedule).racers.Keys == r.racers.Keys
    decreases |schedule|
  {
    if schedule != [] {
      MoveOk(order, m0, r, schedule[0]);
      MoveKeepsRacers(order, r, schedule[0]);
      RunOk(order, m0, Move(order, r, schedule[0]), schedule[1..]);
    }
  }

  lemma WinnersAdded(all: set<Seat>, m0: Members, r: Race)
    requires Inv(all, m0, r)
    ensures |r.members| == |m0| + |Winners(r.racers)|
  {
    assert Winners(r.racers) <= r.racers.Keys;
    assert |r.members.Keys| == |m0.Keys + Winners(r.racers)|;
  }

  ghost predicate AllAnswered(racers: map<Id, Racer>) {
    forall u :: u in racers ==> racers[u].Admitted? || racers[u].TurnedAway?
  }

  lemma SomeoneWon(all: set<Seat>, m0: Members, t: Race)
    requires Inv(all, m0, t) && t.racers != map[] && AllAnswered(t.racers)
    ensures |Winners(t.racers)| >= 1
  {
    WinnersAdded(all, m0, t);
    var u :| u in t.racers;
    assert RacerOk(all, m0, t.members, t.racers[u]);
    if t.racers[u].Admitted? { assert u in Winners(t.racers); }
  }

  lemma RacersAtStart(all: set<Seat>, r: Race)
    requires Seated(all, r.members) && r.members.Keys !! r.racers.Keys
    requires forall u :: u in r.racers ==> r.racers[u] == Entering
    ensures Inv(all, r.members, r)
  {
    assert Winners(r.racers) == {};
  }

  /** With the index alone, in every schedule no seat is doubled and no more than the k free seats are filled; if nobody
      gives up and all finish, at least one racer is admitted, so exactly one when one seat was free. */
  lemma IndexAloneIsSafe(mode: Mode, r: Race, schedule: seq<Choice>)
    requires SeatsAllowed(mode, r.members) && DistinctSeats(r.members) && |r.members| < mode.Capacity()
    requires r.members.Keys !! r.racers.Keys && forall u :: u in r.racers ==> r.racers[u] == Entering
    ensures var t, k := Run(mode.SeatOrder(), r, schedule), mode.Capacity() - |r.members|;
            && DistinctSeats(t.members) && |Winners(t.racers)| <= k
            && (r.racers != map[] && AllAnswered(t.racers) ==>
                  1 <= |Winners(t.racers)| && (k == 1 ==> |Winners(t.racers)| == 1))
  {
    var order, m0 := mode.SeatOrder(), r.members;
    SeatOrderAlternates(mode);
    RacersAtStart(Elements(order), r);
    RunOk(order, m0, r, schedule);
    var t := Run(order, r, schedule);
    WinnersAdded(Elements(order), m0, t);
    FullWhenEverySeatTaken(Elements(order), t.members);
    if r.racers != map[] && AllAnswered(t.racers) {
      assert t.racers.Keys == r.racers.Keys;
      SomeoneWon(Elements(order), m0, t);
    }
  }
}
