/** Seats and turns: the order seats fill in (internal/rooms/model.go) and the order turns pass in
    (internal/matches/turn.go), for any number of players a side. */
module Turns {
  import opened Basics
  import Matches

  datatype Seat = Seat(side: int, slot: int)

  /** The order rows are read in: ORDER BY side, slot. */
  predicate SeatBefore(a: Seat, b: Seat) {
    a.side < b.side || (a.side == b.side && a.slot < b.slot)
  }

  function AllSeats(perSide: nat): set<Seat> {
    set i, k | 0 <= i < 2 && 0 <= k < perSide :: Seat(i, k)
  }

  function Alternating(perSide: nat): seq<Seat> {
    seq(2 * perSide, j requires 0 <= j < 2 * perSide => Seat(j % 2, j / 2))
  }

  lemma AlternatingCoversAllSeats(perSide: nat)
    ensures Elements(Alternating(perSide)) == AllSeats(perSide)
    ensures NoDuplicates(Alternating(perSide))
    ensures |AllSeats(perSide)| == 2 * perSide
  {
    var order := Alternating(perSide);
    forall seat | seat in AllSeats(perSide) ensures seat in order {
      assert order[2 * seat.slot + seat.side] == seat;
    }
    assert Elements(order) == AllSeats(perSide);
    DistinctSize(order);
  }

  // ---------------------------------------------------------------- division

  lemma DivModUnique(a: int, c: int, q: int, r: int)
    requires c > 0 && a == q * c + r && 0 <= r < c
    ensures a / c == q && a % c == r
  {
    var d := a / c - q;
    assert d * c == r - a % c;
    assert d > 0 ==> d * c >= c;
    assert d < 0 ==> d * c <= -c;
  }

  // ---------------------------------------------------------------- turn.go

  datatype TurnRef = TurnRef(side: int, playerIdx: int)

  function FirstTurn(): TurnRef { TurnRef(0, 0) }

  /** Both sides have players, so that advancing a turn never divides by zero. */
  predicate BothSidesPlay(sides: Matches.Sides) {
    |sides[0].players| > 0 && |sides[1].players| > 0
  }

  function NextTurn(sides: Matches.Sides, current: TurnRef): TurnRef
    requires BothSidesPlay(sides)
  {
    var n := current.playerIdx * 2 + current.side + 1;
    TurnRef(n % 2, (n / 2) % |sides[n % 2].players|)
  }

  function TurnAfter(sides: Matches.Sides, timeouts: nat): TurnRef
    requires BothSidesPlay(sides)
  {
    if timeouts == 0 then FirstTurn() else NextTurn(sides, TurnAfter(sides, timeouts - 1))
  }

  ghost predicate EvenSides(sides: Matches.Sides, perSide: nat) {
    perSide > 0 && |sides[0].players| == perSide && |sides[1].players| == perSide
  }

  /** One step of the rotation: the other side, and the next slot when side A comes round again. */
  lemma NextTurnIs(sides: Matches.Sides, perSide: nat, side: nat, slot: nat)
    requires EvenSides(sides, perSide) && side < 2 && slot < perSide
    ensures NextTurn(sides, TurnRef(side, slot)) ==
            if side == 0 then TurnRef(1, slot) else TurnRef(0, if slot + 1 == perSide then 0 else slot + 1)
  {
    if side == 0 {
      assert (slot * 2 + side + 1) / 2 == slot;
      DivModUnique(slot, perSide, 0, slot);
    } else if slot + 1 < perSide {
      assert (slot * 2 + side + 1) / 2 == slot + 1;
      DivModUnique(slot + 1, perSide, 0, slot + 1);
    } else {
      assert (slot * 2 + side + 1) / 2 == perSide;
      DivModUnique(perSide, perSide, 1, 0);
    }
  }

  /** The closed form, with the quotient and remainder of k div 2 by p given as q and slot. */
  lemma {:induction false} TurnAfterSplit(sides: Matches.Sides, perSide: nat, k: nat, q: int, slot: nat)
    requires EvenSides(sides, perSide)
    requires k / 2 == q * perSide + slot && slot < perSide
    ensures TurnAfter(sides, k) == TurnRef(k % 2, slot)
    decreases k
  {
    if k == 0 {
      DivModUnique(0, perSide, q, slot);
      DivModUnique(0, perSide, 0, 0);
    } else if k % 2 == 1 {
      TurnAfterSplit(sides, perSide, k - 1, q, slot);
      NextTurnIs(sides, perSide, 0, slot);
    } else if slot > 0 {
      TurnAfterSplit(sides, perSide, k - 1, q, slot - 1);
      NextTurnIs(sides, perSide, 1, slot - 1);
    } else {
      assert k / 2 - 1 == (q - 1) * perSide + (perSide - 1);
      TurnAfterSplit(sides, perSide, k - 1, q - 1, perSide - 1);
      NextTurnIs(sides, perSide, 1, perSide - 1);
    }
  }

  /** After k timeouts the turn is (k mod 2, (k div 2) mod p). */
  lemma TurnAfterIs(sides: Matches.Sides, perSide: nat, k: nat)
    requires EvenSides(sides, perSide)
    ensures TurnAfter(sides, k) == TurnRef(k % 2, (k / 2) % perSide)
  {
    TurnAfterSplit(sides, perSide, k, (k / 2) / perSide, (k / 2) % perSide);
  }

  lemma Halved(k: nat, pairs: int, r: nat)
    requires k == 2 * pairs + r
    ensures k / 2 == pairs + r / 2 && k % 2 == r % 2
  {
  }

  /** Turn k belongs to the seat that fills k-th, counting the seats round and round. */
  lemma TurnsFollowSeats(sides: Matches.Sides, perSide: nat, k: nat)
    requires EvenSides(sides, perSide)
    ensures var seat := Alternating(perSide)[k % (2 * perSide)];
            TurnAfter(sides, k) == TurnRef(seat.side, seat.slot)
  {
    var c := 2 * perSide;
    Halved(k, (k / c) * perSide, k % c);
    TurnAfterSplit(sides, perSide, k, k / c, k % c / 2);
  }

  // ---------------------------------------------------------------- fairness

  /** How many of the turns start, ..., start + m - 1 are the given one. */
  function TurnsOf(sides: Matches.Sides, turn: TurnRef, start: nat, m: nat): nat
    requires BothSidesPlay(sides)
    decreases m
  {
    if m == 0 then 0
    else TurnsOf(sides, turn, start, m - 1) + if TurnAfter(sides, start + m - 1) == turn then 1 else 0
  }

  lemma TurnIsMineIff(sides: Matches.Sides, perSide: nat, j: nat, k: nat, q: int, r: nat)
    requires EvenSides(sides, perSide)
    requires j < 2 * perSide && r < 2 * perSide && k == q * (2 * perSide) + j + r
    ensures TurnAfter(sides, k) == TurnRef(j % 2, j / 2) <==> r == 0
  {
    var c := 2 * perSide;
    TurnsFollowSeats(sides, perSide, k);
    if j + r < c {
      DivModUnique(k, c, q, j + r);
    } else {
      assert k == (q + 1) * c + (j + r - c);
      DivModUnique(k, c, q + 1, j + r - c);
    }
  }

  lemma {:induction false} TurnsCounted(sides: Matches.Sides, perSide: nat, j: nat, start: nat, m: nat,
                                        q0: int, r0: nat, q: int, r: nat)
    requires EvenSides(sides, perSide)
    requires j < 2 * perSide && r0 < 2 * perSide && r < 2 * perSide
    requires start + 2 * perSide - 1 - j == q0 * (2 * perSide) + r0
    requires start + m + 2 * perSide - 1 - j == q * (2 * perSide) + r
    ensures TurnsOf(sides, TurnRef(j % 2, j / 2), start, m) == q - q0
    decreases m
  {
    var c := 2 * perSide;
    if m == 0 {
      DivModUnique(q * c + r, c, q, r);
      DivModUnique(q * c + r, c, q0, r0);
    } else {
      assert start + m - 1 == (q - 1) * c + j + r;
      TurnIsMineIff(sides, perSide, j, start + m - 1, q - 1, r);
      if r > 0 {
        TurnsCounted(sides, perSide, j, start, m - 1, q0, r0, q, r - 1);
      } else {
        TurnsCounted(sides, perSide, j, start, m - 1, q0, r0, q - 1, c - 1);
      }
    }
  }

  lemma WindowDivision(c: nat, x: nat, m: nat)
    requires c > 0
    ensures m / c <= (x + m) / c - x / c <= m / c + 1
  {
    var r := x % c + m % c;
    assert x + m == (x / c + m / c) * c + r;
    if r < c {
      DivModUnique(x + m, c, x / c + m / c, r);
    } else {
      assert x + m == (x / c + m / c + 1) * c + (r - c);
      DivModUnique(x + m, c, x / c + m / c + 1, r - c);
    }
  }

  lemma TurnsWithin(sides: Matches.Sides, perSide: nat, seat: Seat, start: nat, m: nat)
    requires EvenSides(sides, perSide) && seat in AllSeats(perSide)
    ensures m / (2 * perSide) <= TurnsOf(sides, TurnRef(seat.side, seat.slot), start, m) <= m / (2 * perSide) + 1
  {
    var c, j := 2 * perSide, 2 * seat.slot + seat.side;
    var from := start + c - 1 - j;
    WindowDivision(c, from, m);
    TurnsCounted(sides, perSide, j, start, m, from / c, from % c, (from + m) / c, (from + m) % c);
  }

  /** Over any m consecutive turns every seat gets m div capacity turns or one more, so two players' counts differ by
      at most one. */
  lemma TurnsAreFair(sides: Matches.Sides, perSide: nat, a: Seat, b: Seat, start: nat, m: nat)
    requires EvenSides(sides, perSide) && a in AllSeats(perSide) && b in AllSeats(perSide)
    ensures m / (2 * perSide) <= TurnsOf(sides, TurnRef(a.side, a.slot), start, m) <= m / (2 * perSide) + 1
    ensures -1 <= TurnsOf(sides, TurnRef(a.side, a.slot), start, m)
                  - TurnsOf(sides, TurnRef(b.side, b.slot), start, m) <= 1
  {
    TurnsWithin(sides, perSide, a, start, m);
    TurnsWithin(sides, perSide, b, start, m);
  }
}
