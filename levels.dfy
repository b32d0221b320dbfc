/**
 * Price levels of one side of an order book: price -> resting quantity,
 * the upsert on add, the reduce-or-erase on modify, and the depth-limited
 * best-first view a snapshot shows.
 *
 * Bids are walked by descending price and asks by ascending price; the
 * flag descending selects the order.
 */
module Levels {
  import opened Types
  import opened Event

  /** Resting quantity at each price of one side (std::map<Price, Quantity>). */
  type LevelMap = map<uint32, uint32>

  /**
   * try_emplace(price, quantity), and on an existing level it->second +=
   * quantity in a 32-bit register.
   */
  function UpdateLevel(levels: LevelMap, price: uint32, quantity: uint32): (r: LevelMap)
    ensures r.Keys == levels.Keys + {price}
    ensures price in levels ==> r[price] == AddU32(levels[price], quantity)
    ensures price !in levels ==> r[price] == quantity
    ensures forall p | p in levels && p != price :: r[p] == levels[p]
  {
    levels[price := if price in levels then AddU32(levels[price], quantity) else quantity]
  }

  /**
   * Reduces an existing level: erased when the reduction reaches the
   * resting quantity, otherwise the difference remains.
   */
  function ModifyLevel(levels: LevelMap, price: uint32, quantity: uint32): (r: LevelMap)
    requires price in levels
    ensures quantity >= levels[price] ==> r == levels - {price}
    ensures quantity < levels[price] ==> r.Keys == levels.Keys && r[price] == levels[price] - quantity
    ensures forall p | p in r && p != price :: p in levels && r[p] == levels[p]
  {
    if quantity >= levels[price] then levels - {price}
    else levels[price := levels[price] - quantity]
  }

  /** RemoveOrder on one side: nothing happens at a price with no level. */
  function ReduceLevel(levels: LevelMap, price: uint32, quantity: uint32): (r: LevelMap)
    ensures price !in levels ==> r == levels
    ensures price in levels ==> r == ModifyLevel(levels, price, quantity)
  {
    if price !in levels then levels else ModifyLevel(levels, price, quantity)
  }

  /** The level change an event makes: AddLevel adds, any other kind reduces. */
  function ApplyEvent(levels: LevelMap, event: byte, price: uint32, quantity: uint32): (r: LevelMap)
    ensures event == kAddLevel ==> r == UpdateLevel(levels, price, quantity)
    ensures event != kAddLevel ==> r == ReduceLevel(levels, price, quantity)
  {
    if event == kAddLevel then UpdateLevel(levels, price, quantity) else ReduceLevel(levels, price, quantity)
  }

  /** No level rests with quantity zero. */
  ghost predicate NoZeroLevels(levels: LevelMap)
  {
    forall p | p in levels :: levels[p] > 0
  }

  /** A reduce never leaves a zero level behind. */
  lemma ReduceKeepsNoZeroLevels(levels: LevelMap, price: uint32, quantity: uint32)
    requires NoZeroLevels(levels)
    ensures NoZeroLevels(ReduceLevel(levels, price, quantity))
    ensures forall p | p in ReduceLevel(levels, price, quantity) :: p in levels
  {
  }

  /** An add of a positive quantity that does not wrap keeps every level positive. */
  lemma AddKeepsNoZeroLevels(levels: LevelMap, price: uint32, quantity: uint32)
    requires NoZeroLevels(levels) && quantity > 0
    requires price in levels ==> levels[price] + quantity < U32_LIMIT
    ensures NoZeroLevels(UpdateLevel(levels, price, quantity))
    ensures price in levels ==> UpdateLevel(levels, price, quantity)[price] == levels[price] + quantity
  {
  }

  /**
   * Reducing by the quantity just added undoes the add, whether the add
   * created the level or raised it.
   */
  lemma ReduceUndoesAdd(levels: LevelMap, price: uint32, quantity: uint32)
    requires NoZeroLevels(levels)
    requires price in levels ==> levels[price] + quantity < U32_LIMIT
    ensures ReduceLevel(UpdateLevel(levels, price, quantity), price, quantity) == levels
  {
    var added := UpdateLevel(levels, price, quantity);
    if price in levels {
      assert added[price] == levels[price] + quantity;
      assert ReduceLevel(added, price, quantity) == levels[price := levels[price]];
    } else {
      assert added - {price} == levels;
    }
  }

  /** p comes before q in the side's walk order. */
  predicate Better(descending: bool, p: int, q: int)
  {
    if descending then p > q else p < q
  }

  /** One row of a snapshot side: a level, or the padding shown past the last level. */
  datatype Row = Level(price: uint32, quantity: uint32) | Padding

  /** Every non-empty set of prices has a best element in either order. */
  lemma {:induction false} BestOf(s: set<uint32>, descending: bool) returns (best: uint32)
    requires s != {}
    ensures best in s && forall q | q in s && q != best :: Better(descending, best, q)
    decreases |s|
  {
    var x :| x in s;
    if s == {x} {
      best := x;
    } else {
      var y := BestOf(s - {x}, descending);
      best := if Better(descending, x, y) then x else y;
      forall q | q in s && q != best
        ensures Better(descending, best, q)
      {
        if q != x && q != y {
          assert q in s - {x};
        }
      }
    }
  }

  lemma BestExists(s: set<uint32>, descending: bool)
    requires s != {}
    ensures exists best | best in s :: forall q | q in s && q != best :: Better(descending, best, q)
  {
    var best := BestOf(s, descending);
  }

  /** The best price of a non-empty set is unique. */
  lemma BestUnique(s: set<uint32>, descending: bool, p: uint32, p': uint32)
    requires p in s && forall q | q in s && q != p :: Better(descending, p, q)
    requires p' in s && forall q | q in s && q != p' :: Better(descending, p', q)
    ensures p == p'
  {
  }

  /** The price a side's walk shows first: highest bid, lowest ask. */
  ghost function Best(s: set<uint32>, descending: bool): (p: uint32)
    requires s != {}
    ensures p in s && forall q | q in s && q != p :: Better(descending, p, q)
  {
    BestExists(s, descending);
    var p :| p in s && forall q | q in s && q != p :: Better(descending, p, q);
    p
  }

  /**
   * The n rows a side's walk produces: the best remaining level each step,
   * and padding once no level remains.
   */
  ghost function TopRows(levels: LevelMap, n: nat, descending: bool): (rows: seq<Row>)
    ensures |rows| == n
    decreases n
  {
    if n == 0 then []
    else if levels == map[] then [Padding] + TopRows(levels, n - 1, descending)
    else
      var p := Best(levels.Keys, descending);
      [Level(p, levels[p])] + TopRows(levels - {p}, n - 1, descending)
  }

  /** The prices a sequence of rows shows. */
  ghost function Shown(rows: seq<Row>): set<uint32>
  {
    set i | 0 <= i < |rows| && rows[i].Level? :: rows[i].price
  }

  /**
   * rows is a depth-limited view of levels: levels with their quantities,
   * strictly best first, each shown level better than every level not
   * shown, and padding only once every level has been shown.
   */
  ghost predicate IsDepthView(rows: seq<Row>, levels: LevelMap, descending: bool)
  {
    && (forall i | 0 <= i < |rows| && rows[i].Level? ::
          rows[i].price in levels && rows[i].quantity == levels[rows[i].price])
    && (forall i, j | 0 <= i < j < |rows| && rows[j].Level? ::
          rows[i].Level? && Better(descending, rows[i].price, rows[j].price))
    && (forall i | 0 <= i < |rows| && rows[i].Padding? :: Shown(rows) == levels.Keys)
    && (forall i, p | 0 <= i < |rows| && rows[i].Level? && p in levels && p !in Shown(rows) ::
          Better(descending, rows[i].price, p))
  }

  /** Putting the best level in front of a view of the other levels gives a view. */
  lemma ViewPrepends(levels: LevelMap, descending: bool, p: uint32, rest: seq<Row>)
    requires p in levels && forall q | q in levels && q != p :: Better(descending, p, q)
    requires IsDepthView(rest, levels - {p}, descending)
    ensures IsDepthView([Level(p, levels[p])] + rest, levels, descending)
  {
    var rows := [Level(p, levels[p])] + rest;
    assert Shown(rows) == Shown(rest) + {p} by {
      forall x | x in Shown(rows) ensures x in Shown(rest) + {p} {
        var i :| 0 <= i < |rows| && rows[i].Level? && rows[i].price == x;
        if i > 0 {
          assert rest[i - 1] == rows[i];
        }
      }
      forall x | x in Shown(rest) ensures x in Shown(rows) {
        var i :| 0 <= i < |rest| && rest[i].Level? && rest[i].price == x;
        assert rows[i + 1] == rest[i];
      }
      assert rows[0].price == p;
    }
    forall i | 0 <= i < |rows| && rows[i].Level?
      ensures rows[i].price in levels && rows[i].quantity == levels[rows[i].price]
    {
      if i > 0 {
        assert rows[i] == rest[i - 1];
      }
    }
    forall i, j | 0 <= i < j < |rows| && rows[j].Level?
      ensures rows[i].Level? && Better(descending, rows[i].price, rows[j].price)
    {
      assert rows[j] == rest[j - 1];
      if i > 0 {
        assert rows[i] == rest[i - 1];
      }
    }
    forall i, x | 0 <= i < |rows| && rows[i].Level? && x in levels && x !in Shown(rows)
      ensures Better(descending, rows[i].price, x)
    {
      if i > 0 {
        assert rows[i] == rest[i - 1];
      }
    }
    forall i | 0 <= i < |rows| && rows[i].Padding?
      ensures Shown(rows) == levels.Keys
    {
      assert rows[i] == rest[i - 1];
    }
  }

  /**
   * The walk is a depth view: best first, with exact quantities, and
   * padding only once the side is exhausted.
   */
  lemma {:induction false} TopRowsIsDepthView(levels: LevelMap, n: nat, descending: bool)
    ensures IsDepthView(TopRows(levels, n, descending), levels, descending)
    decreases n
  {
    if n > 0 {
      if levels == map[] {
        AllPadding(n, descending);
      } else {
        var p := Best(levels.Keys, descending);
        TopRowsIsDepthView(levels - {p}, n - 1, descending);
        ViewPrepends(levels, descending, p, TopRows(levels - {p}, n - 1, descending));
      }
    }
  }

  /** Over a side with no levels the walk is all padding. */
  lemma {:induction false} AllPadding(n: nat, descending: bool)
    ensures forall i | 0 <= i < n :: TopRows(map[], n, descending)[i] == Padding
    ensures Shown(TopRows(map[], n, descending)) == {}
    decreases n
  {
    if n > 0 {
      AllPadding(n - 1, descending);
      var rows := TopRows(map[], n, descending);
      var rest := TopRows(map[], n - 1, descending);
      assert rows == [Padding] + rest;
      forall i | 0 <= i < n ensures rows[i] == Padding {
        if i > 0 {
          assert rows[i] == rest[i - 1];
        }
      }
    }
  }

  /** With depth at least the number of levels, the walk shows every level. */
  lemma {:induction false} TopRowsShowsAll(levels: LevelMap, n: nat, descending: bool)
    requires n >= |levels|
    ensures Shown(TopRows(levels, n, descending)) == levels.Keys
    decreases n
  {
    var rows := TopRows(levels, n, descending);
    if levels == map[] {
      AllPadding(n, descending);
    } else {
      var p := Best(levels.Keys, descending);
      assert |levels - {p}| == |levels| - 1 by {
        assert (levels - {p}).Keys == levels.Keys - {p};
      }
      TopRowsShowsAll(levels - {p}, n - 1, descending);
      var rest := TopRows(levels - {p}, n - 1, descending);
      assert rows == [Level(p, levels[p])] + rest;
      forall x | x in levels.Keys ensures x in Shown(rows) {
        if x == p {
          assert rows[0].price == p;
        } else {
          assert x in Shown(rest);
          var i :| 0 <= i < |rest| && rest[i].Level? && rest[i].price == x;
          assert rows[i + 1] == rest[i];
        }
      }
      TopRowsIsDepthView(levels, n, descending);
      forall x | x in Shown(rows) ensures x in levels.Keys {
        var i :| 0 <= i < |rows| && rows[i].Level? && rows[i].price == x;
      }
    }
  }
}
