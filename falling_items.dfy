/**
 * The falling items of the catch-the-hearts mini-game and the pure list
 * transforms the game applies to them: the spawner's item generator, the
 * motion step (every item falls by its speed, then items past the bottom
 * edge are dropped) and the catch filter (drop the item with a given id).
 * Positions are percentages of the play field, kept as reals.
 */
module FallingItems {

  datatype Kind = Heart | Snowflake

  datatype FallingItem = FallingItem(id: int, x: real, y: real, kind: Kind, speed: real)

  /** Every item is created just above the top edge. */
  const SpawnY: real := -10.0

  /** An item whose y reaches this line has fallen off the bottom. */
  const FloorY: real := 110.0

  /** Points for catching an item: a heart is worth two, a snowflake one. */
  function Points(k: Kind): (p: nat)
    ensures 1 <= p <= 2
    ensures p == 2 <==> k == Heart
  {
    if k == Heart then 2 else 1
  }

  /**
   * The item the spawner creates with identifier id from three uniform
   * draws in [0, 1): one for x, one for the kind, one for the speed.
   */
  function NewItem(id: int, drawX: real, drawKind: real, drawSpeed: real): (it: FallingItem)
    requires 0.0 <= drawX < 1.0 && 0.0 <= drawKind < 1.0 && 0.0 <= drawSpeed < 1.0
    ensures it.id == id && it.y == SpawnY
    ensures 10.0 <= it.x < 90.0 && 2.0 <= it.speed < 4.0
    ensures it.kind == Heart <==> drawKind > 0.3
    ensures InPlay(it)
  {
    FallingItem(id, drawX * 80.0 + 10.0, SpawnY,
                if drawKind > 0.3 then Heart else Snowflake,
                drawSpeed * 2.0 + 2.0)
  }

  /** The ranges a live item stays in: x and speed as drawn, y between spawn line and floor. */
  predicate InPlay(it: FallingItem)
  {
    10.0 <= it.x < 90.0 && 2.0 <= it.speed < 4.0 && SpawnY <= it.y < FloorY
  }

  /** The item one motion step later, before any eviction. */
  function Fall(it: FallingItem): FallingItem
  {
    it.(y := it.y + it.speed)
  }

  /** Every item moved down by its own speed, nothing else about it changed. */
  function Moved(items: seq<FallingItem>): (r: seq<FallingItem>)
    ensures |r| == |items|
    ensures forall i :: 0 <= i < |items| ==> r[i] == Fall(items[i])
  {
    if items == [] then [] else [Fall(items[0])] + Moved(items[1..])
  }

  /** The items still above the floor (y below 110), in their original order. */
  function OnScreen(items: seq<FallingItem>): (r: seq<FallingItem>)
    ensures |r| <= |items|
    ensures forall it :: it in r <==> it in items && it.y < FloorY
    ensures SubsequenceOf(r, items)
  {
    if items == [] then []
    else if items[0].y < FloorY then [items[0]] + OnScreen(items[1..])
    else OnScreen(items[1..])
  }

  /** One motion tick of the item list: everything falls, then what passed the floor goes. */
  function MotionStep(items: seq<FallingItem>): (r: seq<FallingItem>)
    ensures |r| <= |items|
    ensures forall it :: it in r ==> it.y < FloorY
  {
    OnScreen(Moved(items))
  }

  /** The items whose identifier differs from id, in their original order. */
  function WithoutId(items: seq<FallingItem>, id: int): (r: seq<FallingItem>)
    ensures forall it :: it in r <==> it in items && it.id != id
    ensures SubsequenceOf(r, items)
  {
    if items == [] then []
    else if items[0].id != id then [items[0]] + WithoutId(items[1..], id)
    else WithoutId(items[1..], id)
  }

  /** s is obtained from t by deleting elements, keeping the order of the rest. */
  ghost predicate SubsequenceOf<T>(s: seq<T>, t: seq<T>)
    decreases |t|
  {
    s == [] ||
    (t != [] && ((s[0] == t[0] && SubsequenceOf(s[1..], t[1..])) || SubsequenceOf(s, t[1..])))
  }

  /** Identifiers along the list are strictly increasing (so they are also distinct). */
  ghost predicate IdsIncreasing(items: seq<FallingItem>)
  {
    forall i, j :: 0 <= i < j < |items| ==> items[i].id < items[j].id
  }

  /** Every identifier in the list is below n (n is the next one to hand out). */
  ghost predicate IdsBelow(items: seq<FallingItem>, n: int)
  {
    forall it :: it in items ==> it.id < n
  }

  /** Deleting elements never adds one. */
  lemma {:induction false} SubsequenceMembers<T>(s: seq<T>, t: seq<T>)
    requires SubsequenceOf(s, t)
    ensures forall x :: x in s ==> x in t
    decreases |t|
  {
    if s != [] {
      if s[0] == t[0] && SubsequenceOf(s[1..], t[1..]) {
        SubsequenceMembers(s[1..], t[1..]);
        assert forall x :: x in s ==> x == s[0] || x in s[1..];
      } else {
        SubsequenceMembers(s, t[1..]);
      }
      assert forall x :: x in t[1..] ==> x in t;
    }
  }

  /** Deleting items from a list with increasing identifiers keeps them increasing. */
  lemma {:induction false} SubsequenceKeepsIdsIncreasing(s: seq<FallingItem>, t: seq<FallingItem>)
    requires SubsequenceOf(s, t) && IdsIncreasing(t)
    ensures IdsIncreasing(s)
    decreases |t|
  {
    if s != [] {
      assert IdsIncreasing(t[1..]);
      if s[0] == t[0] && SubsequenceOf(s[1..], t[1..]) {
        SubsequenceKeepsIdsIncreasing(s[1..], t[1..]);
        SubsequenceMembers(s[1..], t[1..]);
        forall j | 0 < j < |s| ensures s[0].id < s[j].id {
          assert s[j] in s[1..];
          var k :| 0 <= k < |t[1..]| && t[1..][k] == s[j];
          assert t[k + 1] == s[j];
        }
      } else {
        SubsequenceKeepsIdsIncreasing(s, t[1..]);
      }
    }
  }

  /**
   * The motion tick keeps exactly the fallen items still above the floor:
   * each survivor is some old item with y advanced by its speed and
   * identifier, x, kind and speed unchanged, and each such fallen item
   * that is above the floor survives.
   */
  lemma MotionStepSurvivors(items: seq<FallingItem>)
    ensures forall it :: it in MotionStep(items) ==> it.y < FloorY
    ensures forall it :: it in MotionStep(items) <==>
      exists i :: 0 <= i < |items| && it == Fall(items[i]) && it.y < FloorY
  {
  }

  /**
   * The motion tick keeps the survivors in their old order, so identifiers
   * that were increasing and below the next identifier remain so.
   */
  lemma MotionStepKeepsOrder(items: seq<FallingItem>, nextId: int)
    requires IdsIncreasing(items) && IdsBelow(items, nextId)
    ensures SubsequenceOf(MotionStep(items), Moved(items))
    ensures IdsIncreasing(MotionStep(items)) && IdsBelow(MotionStep(items), nextId)
  {
    var m := Moved(items);
    assert IdsIncreasing(m);
    forall it | it in m ensures it.id < nextId {
      var i :| 0 <= i < |m| && m[i] == it;
      assert items[i] in items;
    }
    SubsequenceKeepsIdsIncreasing(MotionStep(items), m);
  }

  /**
   * When identifiers are increasing and id is present, the catch filter
   * removes exactly one item.
   */
  lemma {:induction false} WithoutIdRemovesOne(items: seq<FallingItem>, id: int)
    requires IdsIncreasing(items)
    requires exists it :: it in items && it.id == id
    ensures |WithoutId(items, id)| == |items| - 1
  {
    if items[0].id == id {
      assert forall it :: it in items[1..] ==> it.id != id by {
        forall it | it in items[1..] ensures it.id != id {
          var k :| 0 <= k < |items[1..]| && items[1..][k] == it;
          assert items[k + 1] == it;
        }
      }
      WithoutIdAbsent(items[1..], id);
    } else {
      var it :| it in items && it.id == id;
      assert it in items[1..];
      assert IdsIncreasing(items[1..]);
      WithoutIdRemovesOne(items[1..], id);
    }
  }

  /** Filtering out an id that is not there changes nothing. */
  lemma {:induction false} WithoutIdAbsent(items: seq<FallingItem>, id: int)
    requires forall it :: it in items ==> it.id != id
    ensures WithoutId(items, id) == items
  {
    if items != [] {
      assert forall it :: it in items[1..] ==> it in items;
      WithoutIdAbsent(items[1..], id);
    }
  }

  /**
   * A spawn tick followed by a motion tick: the old items move as if the
   * new one were not there, and the new item, just created at the spawn
   * line, falls once and is never evicted by that tick.
   */
  lemma {:induction false} SpawnThenMove(items: seq<FallingItem>, spawned: FallingItem)
    requires InPlay(spawned) && spawned.y == SpawnY
    ensures MotionStep(items + [spawned]) == MotionStep(items) + [Fall(spawned)]
  {
    if items == [] {
      assert items + [spawned] == [spawned];
    } else {
      assert (items + [spawned])[1..] == items[1..] + [spawned];
      SpawnThenMove(items[1..], spawned);
    }
  }
}
