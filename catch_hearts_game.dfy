/**
 * The catch-the-falling-items mini-game session: six pieces of state
 * (score, time left, live items, started and ended flags, next identifier)
 * and the handlers that change them. Each periodic task (the one-second
 * clock, the spawner, the motion step) is one method, guarded by the same
 * phase check as in the component, so any interleaving of ticks and
 * catches is a sequence of method calls.
 */
module CatchHeartsGame {
  import opened FallingItems

  /** Length of a game in seconds. */
  const GameDuration: int := 15

  /** The three screens the component renders, decided by the two flags. */
  datatype Screen = StartScreen | GameScreen | EndScreen

  /**
   * The countdown updater applied to the time left on each clock tick:
   * the new time left and whether this tick ends the game.
   */
  function Countdown(prev: int): (r: (int, bool))
    ensures 0 <= r.0
    ensures r.1 <==> r.0 == 0
    ensures prev > 1 ==> r.0 == prev - 1
    ensures prev <= 1 ==> r == (0, true)
  {
    if prev <= 1 then (0, true) else (prev - 1, false)
  }

  /** Time left, and whether the game has ended, after n clock ticks from a running game with t seconds left. */
  function TicksFrom(t: int, n: nat): (int, bool)
  {
    if n == 0 then (t, false)
    else if Countdown(t).1 then Countdown(t)
    else TicksFrom(Countdown(t).0, n - 1)
  }

  /** A running game with t seconds left ends on exactly its t-th clock tick. */
  lemma {:induction false} CountdownEndsOnTick(t: int, n: nat)
    requires t >= 1
    ensures TicksFrom(t, n) == if n < t then (t - n, false) else (0, true)
  {
    if n > 0 && t > 1 {
      CountdownEndsOnTick(t - 1, n - 1);
    }
  }

  /** From a fresh start, 14 ticks leave one second and the 15th ends the game. */
  lemma FullGameIsFifteenTicks()
    ensures TicksFrom(GameDuration, GameDuration - 1) == (1, false)
    ensures TicksFrom(GameDuration, GameDuration) == (0, true)
  {
    CountdownEndsOnTick(GameDuration, GameDuration - 1);
    CountdownEndsOnTick(GameDuration, GameDuration);
  }

  class Session {
    var score: int
    var timeLeft: int
    var items: seq<FallingItem>
    var gameStarted: bool
    var gameEnded: bool
    var nextId: int

    /**
     * What every handler keeps: time in [0, GameDuration], a non-negative
     * score, the ended flag only after a start and only with the clock at
     * 0, a running clock showing at least one second, live items with
     * strictly increasing identifiers below nextId, each above the floor.
     */
    ghost predicate Valid()
      reads this
    {
      && 0 <= score && 0 <= nextId
      && 0 <= timeLeft <= GameDuration
      && (gameEnded ==> gameStarted && timeLeft == 0)
      && (gameStarted && !gameEnded ==> timeLeft >= 1)
      && (!gameStarted ==> score == 0 && timeLeft == GameDuration && items == [])
      && IdsIncreasing(items) && IdsBelow(items, nextId)
      && forall it :: it in items ==> InPlay(it)
    }

    /** The screen rendered for the current flags. */
    function CurrentScreen(): (s: Screen)
      reads this
      ensures s == StartScreen <==> !gameStarted
      ensures s == GameScreen <==> gameStarted && !gameEnded
      ensures s == EndScreen <==> gameStarted && gameEnded
      ensures Valid() && s == EndScreen ==> timeLeft == 0
    {
      if !gameStarted then StartScreen else if gameEnded then EndScreen else GameScreen
    }

    constructor()
      ensures Valid()
      ensures score == 0 && timeLeft == GameDuration && items == []
      ensures !gameStarted && !gameEnded && nextId == 0
    {
      score := 0;
      timeLeft := GameDuration;
      items := [];
      gameStarted := false;
      gameEnded := false;
      nextId := 0;
    }

    /** One firing of the one-second countdown timer. */
    method ClockTick()
      requires Valid()
      modifies this
      ensures Valid()
      ensures old(CurrentScreen()) != GameScreen ==> unchanged(this)
      ensures old(CurrentScreen()) == GameScreen ==>
        && (timeLeft, gameEnded) == Countdown(old(timeLeft))
        && timeLeft < old(timeLeft)
        && gameStarted && score == old(score) && items == old(items) && nextId == old(nextId)
    {
      if !gameStarted || gameEnded {
        return;
      }
      var (next, ended) := Countdown(timeLeft);
      if ended {
        gameEnded := true;
      }
      timeLeft := next;
    }

    /**
     * One firing of the spawner, given the three random draws in [0, 1)
     * the spawner takes for x, kind and speed.
     */
    method Spawn(drawX: real, drawKind: real, drawSpeed: real)
      requires Valid()
      requires 0.0 <= drawX < 1.0 && 0.0 <= drawKind < 1.0 && 0.0 <= drawSpeed < 1.0
      modifies this
      ensures Valid()
      ensures old(CurrentScreen()) != GameScreen ==> unchanged(this)
      ensures old(CurrentScreen()) == GameScreen ==>
        && items == old(items) + [NewItem(old(nextId), drawX, drawKind, drawSpeed)]
        && nextId == old(nextId) + 1
        && score == old(score) && timeLeft == old(timeLeft)
        && gameStarted == old(gameStarted) && gameEnded == old(gameEnded)
    {
      if !gameStarted || gameEnded {
        return;
      }
      var item := NewItem(nextId, drawX, drawKind, drawSpeed);
      nextId := nextId + 1;
      items := items + [item];
    }

    /** One firing of the 50 ms motion timer. */
    method MotionTick()
      requires Valid()
      modifies this
      ensures Valid()
      ensures old(CurrentScreen()) != GameScreen ==> unchanged(this)
      ensures old(CurrentScreen()) == GameScreen ==>
        && items == MotionStep(old(items))
        && score == old(score) && timeLeft == old(timeLeft) && nextId == old(nextId)
        && gameStarted == old(gameStarted) && gameEnded == old(gameEnded)
      ensures forall it :: it in items ==> it.y < FloorY
    {
      if !gameStarted || gameEnded {
        return;
      }
      var moved := MotionStep(items);
      MotionStepSurvivors(items);
      MotionStepKeepsOrder(items, nextId);
      forall it | it in moved ensures InPlay(it) {
        var i :| 0 <= i < |items| && it == Fall(items[i]) && it.y < FloorY;
        assert items[i] in items;
      }
      items := moved;
    }

    /**
     * The player taps a rendered item. The item must still be live: the
     * component itself does not check this before crediting points.
     */
    method CatchItem(item: FallingItem)
      requires Valid()
      requires exists it :: it in items && it.id == item.id && it.kind == item.kind
      modifies this
      ensures Valid()
      ensures old(gameEnded) ==> unchanged(this)
      ensures !old(gameEnded) ==>
        && score == old(score) + Points(item.kind)
        && items == WithoutId(old(items), item.id)
        && |items| == |old(items)| - 1
        && timeLeft == old(timeLeft) && nextId == old(nextId)
        && gameStarted == old(gameStarted) && gameEnded == old(gameEnded)
      ensures forall it :: it in items ==> it.id != item.id || old(gameEnded)
    {
      if gameEnded {
        return;
      }
      var points := Points(item.kind);
      score := score + points;
      WithoutIdRemovesOne(items, item.id);
      SubsequenceKeepsIdsIncreasing(WithoutId(items, item.id), items);
      items := WithoutId(items, item.id);
    }

    /**
     * The start button, which only the start screen shows: a new game; the
     * identifier counter is not reset.
     */
    method StartGame()
      requires Valid()
      requires CurrentScreen() == StartScreen
      modifies this
      ensures Valid()
      ensures gameStarted && !gameEnded
      ensures score == 0 && timeLeft == GameDuration && items == []
      ensures nextId == old(nextId)
    {
      gameStarted := true;
      score := 0;
      timeLeft := GameDuration;
      items := [];
      gameEnded := false;
    }

    /** The end screen's button: hands the score to the caller's onComplete. */
    method HandleContinue() returns (finalScore: int)
      requires Valid()
      ensures finalScore == score && finalScore >= 0
    {
      finalScore := score;
    }
  }

  /** A game in which nothing is caught: fifteen clock ticks end it with score 0. */
  method FifteenSecondGame() returns (s: Session)
    ensures s.Valid() && s.CurrentScreen() == EndScreen
    ensures s.score == 0 && s.timeLeft == 0
  {
    s := new Session();
    s.StartGame();
    var n := 0;
    while n < GameDuration
      invariant 0 <= n <= GameDuration
      invariant s.Valid() && s.score == 0
      invariant n < GameDuration ==> s.CurrentScreen() == GameScreen && s.timeLeft == GameDuration - n
      invariant n == GameDuration ==> s.CurrentScreen() == EndScreen
    {
      s.ClockTick();
      n := n + 1;
    }
  }

  /**
   * An ended game is final: every timer event and a tap on a still-rendered
   * item leave the session as it was, and it stays on the end screen.
   */
  method EndedGameIsFinal(s: Session, item: FallingItem)
    requires s.Valid() && s.CurrentScreen() == EndScreen
    requires exists it :: it in s.items && it.id == item.id && it.kind == item.kind
    modifies s
    ensures unchanged(s)
    ensures s.CurrentScreen() == EndScreen
  {
    s.ClockTick();
    s.Spawn(0.0, 0.0, 0.0);
    s.MotionTick();
    s.CatchItem(item);
  }

  /** A slow heart nobody catches falls off after 60 motion ticks and scores nothing. */
  method UncaughtHeartFallsOff() returns (s: Session)
    ensures s.Valid() && s.CurrentScreen() == GameScreen
    ensures s.items == [] && s.score == 0 && s.nextId == 1
  {
    s := new Session();
    s.StartGame();
    s.Spawn(0.5, 0.9, 0.0);
    var k := 0;
    while k < 60
      invariant 0 <= k <= 60
      invariant s.Valid() && s.CurrentScreen() == GameScreen && s.score == 0 && s.nextId == 1
      invariant k < 60 ==> s.items == [FallingItem(0, 50.0, -10.0 + 2.0 * k as real, Heart, 2.0)]
      invariant k == 60 ==> s.items == []
    {
      s.MotionTick();
      k := k + 1;
    }
  }

  /** A snowflake caught right away scores 1 and leaves no live item with its identifier. */
  method CatchOneSnowflake() returns (s: Session, caught: FallingItem)
    ensures s.Valid() && s.CurrentScreen() == GameScreen
    ensures caught.kind == Snowflake && s.score == 1 && s.items == []
    ensures caught.id < s.nextId
  {
    s := new Session();
    s.StartGame();
    s.Spawn(0.5, 0.2, 0.0);
    caught := s.items[0];
    s.CatchItem(caught);
  }
}
