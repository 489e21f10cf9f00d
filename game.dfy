/** The game state of dodger.c as one object: the globals become fields, the obstacle table a fixed
    array of 25 slots, and each engine function a method that changes them in place. rand() is a
    stream of fractions fixed at construction together with the number of draws taken so far. */
module Dodger {
  import opened Random
  import opened Player
  import opened Difficulty
  import opened Obstacles
  import opened Collision

  /** One frame of input: the four direction flags after event polling, and whether a quit event
      arrived during the poll. */
  datatype Input = Input(up: bool, down: bool, left: bool, right: bool, quit: bool)

  /** Every value of the draw stream is a possible rand() / RAND_MAX. */
  ghost predicate Fractions(rand: nat -> real) {
    forall n: nat :: IsFraction(rand(n))
  }

  /** The condition of tryCreateObstacle: room in the table, and then a draw below the probability.
      The draw is only taken when there is room. Reference definition of the spawn decision
      TryCreateObstacle is proved against. */
  function SpawnGate(count: int, prob: real, gate: real): (spawned: bool)
    ensures spawned <==> count < MaxNumOfObstacles && gate < prob
  {
    count < MaxNumOfObstacles && GenRandDouble(0.0, 1.0, gate) < prob
  }

  /** How many draws tryCreateObstacle takes: none on a full table, one for the gate, and three
      more for createObstacle when the gate passes. Reference definition of the draws
      TryCreateObstacle is proved to take. */
  function DrawsUsed(count: int, spawned: bool): (n: nat)
    ensures count >= MaxNumOfObstacles ==> n == 0
    ensures count < MaxNumOfObstacles ==> n == if spawned then 4 else 1
  {
    if count >= MaxNumOfObstacles then 0 else if spawned then 4 else 1
  }

  /** The table after tryCreateObstacle, from the draws at positions d, d + 1, ... of the stream. */
  function TrySpawn(s: seq<Slot>, count: int, prob: real, rand: nat -> real, d: nat): (r: seq<Slot>)
    ensures |r| == |s|
    ensures count >= MaxNumOfObstacles ==> r == s
  {
    if SpawnGate(count, prob, rand(d)) then Place(s, NewObstacle(rand(d + 1), rand(d + 2), rand(d + 3)))
    else s
  }

  /** The part of the game state one frame changes. */
  datatype Snapshot = Snapshot(playerX: real, playerY: real, slots: seq<Slot>, count: int,
                               prob: real, score: int, randCalls: nat)

  /** One frame of playGame's loop on a snapshot: movePlayer, tryCreateObstacle, moveObstacles. */
  function FrameStep(st: Snapshot, input: Input, rand: nat -> real): (next: Snapshot)
    ensures 0.0 <= next.playerX <= 1.0 - PlayerWidth && 0.0 <= next.playerY <= 1.0 - PlayerHeight
    ensures next.score >= st.score && next.randCalls >= st.randCalls
    ensures |next.slots| == |st.slots|
    ensures InRange(st.prob) ==> InRange(next.prob)
  {
    var spawned := SpawnGate(st.count, st.prob, rand(st.randCalls));
    var table := TrySpawn(st.slots, st.count, st.prob, rand, st.randCalls);
    Snapshot(Clamp(st.playerX + Step(input.left, input.right), PlayerWidth),
             Clamp(st.playerY + Step(input.up, input.down), PlayerHeight),
             AdvanceAll(table),
             st.count + Indicator(spawned) - ExitCount(table),
             NextProbability(spawned, st.prob),
             st.score + ExitCount(table),
             st.randCalls + DrawsUsed(st.count, spawned))
  }

  /** checkCollision on a snapshot. */
  predicate SnapshotCollides(st: Snapshot) {
    Collides(st.playerX, st.playerY, st.slots)
  }

  /** trace[k + 1] is the state after the frame with inputs[k], for every frame in the trace. */
  ghost predicate IsTrace(trace: seq<Snapshot>, inputs: seq<Input>, rand: nat -> real) {
    1 <= |trace| <= |inputs| + 1 &&
    forall k :: 0 <= k < |trace| - 1 ==> trace[k + 1] == FrameStep(trace[k], inputs[k], rand)
  }

  /** No state of the trace after a frame and before position n collides. */
  predicate NoHitBefore(trace: seq<Snapshot>, n: int) {
    forall k :: 1 <= k < n && k < |trace| ==> !SnapshotCollides(trace[k])
  }

  /** No input before position n asks to quit. */
  predicate NoQuitBefore(inputs: seq<Input>, n: int) {
    forall k :: 0 <= k < n && k < |inputs| ==> !inputs[k].quit
  }

  /** A trace extended by the state after one more frame is still a trace, and gains no
      collision before its new last state. */
  lemma TraceExtends(trace: seq<Snapshot>, inputs: seq<Input>, rand: nat -> real, next: Snapshot)
    requires IsTrace(trace, inputs, rand) && |trace| <= |inputs|
    requires next == FrameStep(trace[|trace| - 1], inputs[|trace| - 1], rand)
    ensures IsTrace(trace + [next], inputs, rand)
    ensures NoHitBefore(trace, |trace|) ==> NoHitBefore(trace + [next], |trace|)
    ensures NoHitBefore(trace, |trace|) && !SnapshotCollides(next) ==> NoHitBefore(trace + [next], |trace| + 1)
  {
    var t := trace + [next];
    forall k | 0 <= k < |t| - 1
      ensures t[k + 1] == FrameStep(t[k], inputs[k], rand)
    {
      if k < |trace| - 1 {
        assert t[k + 1] == trace[k + 1] && t[k] == trace[k];
      }
    }
    assert forall k :: 0 <= k < |trace| ==> t[k] == trace[k];
  }

  /** Along a trace the score never decreases. */
  lemma {:induction false} TraceScore(trace: seq<Snapshot>, inputs: seq<Input>, rand: nat -> real)
    requires IsTrace(trace, inputs, rand)
    ensures trace[|trace| - 1].score >= trace[0].score
  {
    if |trace| > 1 {
      var init := trace[..|trace| - 1];
      assert IsTrace(init, inputs, rand) by {
        assert forall k :: 0 <= k < |init| ==> init[k] == trace[k];
      }
      TraceScore(init, inputs, rand);
      assert trace[|trace| - 1] == FrameStep(trace[|trace| - 2], inputs[|trace| - 2], rand);
    }
  }

  class Game {
    var gameOver: bool
    var score: int
    var topScore: int
    var playerX: real
    var playerY: real
    var obstacleCount: int
    var obstacleGenProb: real
    const obstacles: array<Slot>
    const rand: nat -> real
    var randCalls: nat

    /** The engine's invariant: the table has 25 slots, obstacle_count is the number of live
        slots, every live obstacle is within its ranges and the probability within its bounds. */
    ghost predicate Valid()
      reads this`obstacleCount, this`obstacleGenProb, obstacles
      ensures Valid() ==> 0 <= obstacleCount <= MaxNumOfObstacles
    {
      obstacles.Length == MaxNumOfObstacles &&
      Fractions(rand) &&
      obstacleCount == Occupied(obstacles[..]) &&
      AllWellFormed(obstacles[..]) &&
      InRange(obstacleGenProb)
    }

    /** The fields one frame changes, as a value. */
    ghost function State(): Snapshot
      reads this`playerX, this`playerY, this`obstacleCount, this`obstacleGenProb, this`score,
            this`randCalls, obstacles
    {
      Snapshot(playerX, playerY, obstacles[..], obstacleCount, obstacleGenProb, score, randCalls)
    }

    /** The globals' initial values; top_score is read from the score file by the host. */
    constructor (rand: nat -> real, topScore: int)
      requires Fractions(rand)
      ensures Valid() && fresh(obstacles)
      ensures this.rand == rand && randCalls == 0 && this.topScore == topScore
      ensures score == 0 && !gameOver && playerX == StartX && playerY == StartY
      ensures obstacleCount == 0 && obstacleGenProb == InitObstacleGenProbability
      ensures forall i :: 0 <= i < obstacles.Length ==> obstacles[i].None?
    {
      this.rand := rand;
      this.topScore := topScore;
      randCalls := 0;
      score := 0;
      gameOver := false;
      playerX, playerY := StartX, StartY;
      obstacleCount := 0;
      obstacleGenProb := InitObstacleGenProbability;
      obstacles := new Slot[MaxNumOfObstacles](_ => None);
      new;
      OccupiedEmpty(obstacles[..]);
    }

    /** rand() / RAND_MAX: the next value of the stream. */
    method Draw() returns (r: real)
      requires Fractions(rand)
      modifies this`randCalls
      ensures r == rand(old(randCalls)) && randCalls == old(randCalls) + 1
      ensures IsFraction(r)
    {
      r := rand(randCalls);
      randCalls := randCalls + 1;
    }

    /** movePlayer, with the four direction flags as parameters. */
    method MovePlayer(up: bool, down: bool, left: bool, right: bool)
      modifies this`playerX, this`playerY
      ensures playerX == Clamp(old(playerX) + Step(left, right), PlayerWidth)
      ensures playerY == Clamp(old(playerY) + Step(up, down), PlayerHeight)
      ensures 0.0 <= playerX <= 1.0 - PlayerWidth && 0.0 <= playerY <= 1.0 - PlayerHeight
      ensures left == right && 0.0 <= old(playerX) <= 1.0 - PlayerWidth ==> playerX == old(playerX)
      ensures up == down && 0.0 <= old(playerY) <= 1.0 - PlayerHeight ==> playerY == old(playerY)
    {
      playerX := playerX + Step(left, right);
      if playerX > 1.0 - PlayerWidth {
        playerX := 1.0 - PlayerWidth;
      } else if playerX < 0.0 {
        playerX := 0.0;
      }
      playerY := playerY + Step(up, down);
      if playerY > 1.0 - PlayerHeight {
        playerY := 1.0 - PlayerHeight;
      } else if playerY < 0.0 {
        playerY := 0.0;
      }
    }

    /** moveObstacles: every live obstacle falls by its speed; the ones past the bottom are
        freed, each taking one off obstacle_count and adding one to score. */
    method MoveObstacles()
      requires obstacles.Length == MaxNumOfObstacles
      modifies obstacles, this`obstacleCount, this`score
      ensures obstacles[..] == AdvanceAll(old(obstacles[..]))
      ensures score == old(score) + ExitCount(old(obstacles[..]))
      ensures obstacleCount == old(obstacleCount) - ExitCount(old(obstacles[..]))
      ensures old(Valid()) ==> Valid()
    {
      ghost var s := obstacles[..];
      for i := 0 to MaxNumOfObstacles
        invariant forall j :: 0 <= j < i ==> obstacles[j] == AdvanceSlot(s[j])
        invariant forall j :: i <= j < MaxNumOfObstacles ==> obstacles[j] == s[j]
        invariant score == old(score) + ExitCount(s[..i])
        invariant obstacleCount == old(obstacleCount) - ExitCount(s[..i])
      {
        assert s[..i + 1][..i] == s[..i];
        match obstacles[i]
        case None =>
        case Some(obs) =>
          var moved := obs.(y := obs.y + obs.speed);
          if moved.y > 1.0 - moved.size {
            obstacles[i] := None;
            obstacleCount := obstacleCount - 1;
            score := score + 1;
          } else {
            obstacles[i] := Some(moved);
          }
      }
      assert s[..MaxNumOfObstacles] == s;
      assert obstacles[..] == AdvanceAll(s);
      AdvanceAllCount(s);
      if old(Valid()) {
        AdvanceAllWellFormed(s);
      }
    }

    /** createObstacle: fill the first null slot with an obstacle drawn at y = 0. On a full table
        it neither changes anything nor draws. */
    method CreateObstacle()
      requires obstacles.Length == MaxNumOfObstacles && Fractions(rand)
      modifies obstacles, this`obstacleCount, this`randCalls
      ensures obstacles[..] == Place(old(obstacles[..]),
        NewObstacle(rand(old(randCalls)), rand(old(randCalls) + 1), rand(old(randCalls) + 2)))
      ensures FirstFree(old(obstacles[..])).Some? ==>
        obstacleCount == old(obstacleCount) + 1 && randCalls == old(randCalls) + 3
      ensures FirstFree(old(obstacles[..])).None? ==>
        obstacleCount == old(obstacleCount) && randCalls == old(randCalls)
      ensures old(Valid()) ==> Valid()
    {
      ghost var s := obstacles[..];
      for i := 0 to MaxNumOfObstacles
        invariant forall j :: 0 <= j < i ==> s[j].Some?
        invariant obstacles[..] == s
        invariant obstacleCount == old(obstacleCount) && randCalls == old(randCalls)
      {
        if obstacles[i].None? {
          var rx := Draw();
          var rsize := Draw();
          var rspeed := Draw();
          obstacles[i] := Some(Obstacle(GenRandDouble(0.0, 1.0, rx), 0.0,
                                        GenRandDouble(MinObstacleSize, MaxObstacleSize, rsize),
                                        GenRandDouble(MinObstacleSpeed, MaxObstacleSpeed, rspeed)));
          obstacleCount := obstacleCount + 1;
          ghost var o := NewObstacle(rx, rsize, rspeed);
          assert FirstFree(s) == Some(i);
          assert obstacles[..] == s[i := Some(o)];
          PlaceEffect(s, o);
          if old(Valid()) {
            PlaceWellFormed(s, o);
          }
          return;
        }
      }
      PlaceEffect(s, NewObstacle(rand(randCalls), rand(randCalls + 1), rand(randCalls + 2)));
    }

    /** tryCreateObstacle: the spawn gate, then createObstacle and a probability decrease, or a
        probability increase. */
    method TryCreateObstacle()
      requires Valid()
      modifies obstacles, this`obstacleCount, this`randCalls, this`obstacleGenProb
      ensures Valid()
      ensures var spawned := SpawnGate(old(obstacleCount), old(obstacleGenProb), rand(old(randCalls)));
        obstacles[..] == TrySpawn(old(obstacles[..]), old(obstacleCount), old(obstacleGenProb), rand, old(randCalls)) &&
        obstacleCount == old(obstacleCount) + Indicator(spawned) &&
        obstacleGenProb == NextProbability(spawned, old(obstacleGenProb)) &&
        randCalls == old(randCalls) + DrawsUsed(old(obstacleCount), spawned)
      ensures old(obstacleCount) == MaxNumOfObstacles ==>
        randCalls == old(randCalls) && obstacles[..] == old(obstacles[..])
    {
      ghost var s, d, p := obstacles[..], randCalls, obstacleGenProb;
      var spawn := false;
      if obstacleCount < MaxNumOfObstacles {
        var r := Draw();
        spawn := GenRandDouble(0.0, 1.0, r) < obstacleGenProb;
      }
      assert spawn == SpawnGate(obstacleCount, p, rand(d));
      if spawn {
        ghost var o := NewObstacle(rand(d + 1), rand(d + 2), rand(d + 3));
        PlaceEffect(s, o);
        CreateObstacle();
        assert obstacles[..] == Place(s, o);
        obstacleGenProb := obstacleGenProb * ObstacleGenProbDecrMult;
        if obstacleGenProb < MinObstacleGenProbability {
          obstacleGenProb := MinObstacleGenProbability;
        }
        assert obstacleGenProb == DecreaseProbability(p);
      } else {
        obstacleGenProb := obstacleGenProb * ObstacleGenProbIncrMult;
        if obstacleGenProb > MaxObstacleGenProbability {
          obstacleGenProb := MaxObstacleGenProbability;
        }
        assert obstacleGenProb == IncreaseProbability(p);
      }
    }

    /** freeObstacles: every slot null; obstacle_count is left as it was. */
    method FreeObstacles()
      requires obstacles.Length == MaxNumOfObstacles
      modifies obstacles
      ensures forall i :: 0 <= i < obstacles.Length ==> obstacles[i].None?
      ensures Occupied(obstacles[..]) == 0
    {
      for i := 0 to MaxNumOfObstacles
        invariant forall j :: 0 <= j < i ==> obstacles[j].None?
      {
        if obstacles[i].Some? {
          obstacles[i] := None;
        }
      }
      OccupiedEmpty(obstacles[..]);
    }

    /** checkCollision: does the player's pixel box overlap the pixel box of some live obstacle?
        Returns at the first overlap. */
    method CheckCollision() returns (hit: bool)
      requires obstacles.Length == MaxNumOfObstacles
      ensures hit == Collides(playerX, playerY, obstacles[..])
    {
      var player := PlayerBox(playerX, playerY);
      for i := 0 to MaxNumOfObstacles
        invariant forall j :: 0 <= j < i ==> !(obstacles[j].Some? && Hits(playerX, playerY, obstacles[j].value))
      {
        match obstacles[i]
        case None =>
        case Some(obs) =>
          var b := ObstacleBox(obs);
          if PairCollision(player.top, player.bottom, player.left, player.right, b.top, b.bottom, b.left, b.right) {
            assert obstacles[..][i] == obstacles[i];
            return true;
          }
      }
      return false;
    }

    /** resetGame: score, player, table, count and probability back to their initial values. */
    method ResetGame()
      requires obstacles.Length == MaxNumOfObstacles && Fractions(rand)
      modifies this`score, this`playerX, this`playerY, obstacles, this`obstacleCount, this`obstacleGenProb
      ensures Valid()
      ensures score == 0 && playerX == StartX && playerY == StartY
      ensures obstacleCount == 0 && obstacleGenProb == InitObstacleGenProbability
      ensures forall i :: 0 <= i < obstacles.Length ==> obstacles[i].None?
    {
      score := 0;
      playerX := StartX;
      playerY := StartY;
      FreeObstacles();
      obstacleCount := 0;
      obstacleGenProb := InitObstacleGenProbability;
    }

    /** The end-of-game update: top_score becomes score when score beats it. */
    method UpdateTopScore()
      modifies this`topScore
      ensures topScore >= old(topScore) && topScore >= score
      ensures topScore == old(topScore) || topScore == score
    {
      if score > topScore {
        topScore := score;
      }
    }

    /** One pass of playGame's loop body, without drawing: move the player, maybe spawn, move the
        obstacles, then test for a collision. */
    method Frame(input: Input) returns (collided: bool)
      requires Valid()
      modifies this`playerX, this`playerY, obstacles, this`obstacleCount, this`randCalls,
               this`obstacleGenProb, this`score
      ensures Valid()
      ensures State() == FrameStep(old(State()), input, rand)
      ensures collided == SnapshotCollides(State())
    {
      ghost var st := State();
      MovePlayer(input.up, input.down, input.left, input.right);
      TryCreateObstacle();
      assert obstacles[..] == TrySpawn(st.slots, st.count, st.prob, rand, st.randCalls);
      MoveObstacles();
      collided := CheckCollision();
    }

    /** One frame of playGame's loop, recorded: the state after it extends the trace. */
    method TracedFrame(input: Input, ghost inputs: seq<Input>, ghost before: seq<Snapshot>)
      returns (hit: bool, ghost after: seq<Snapshot>)
      requires Valid() && IsTrace(before, inputs, rand) && |before| <= |inputs|
      requires before[|before| - 1] == State() && inputs[|before| - 1] == input
      modifies this`playerX, this`playerY, obstacles, this`obstacleCount, this`randCalls,
               this`obstacleGenProb, this`score
      ensures Valid() && IsTrace(after, inputs, rand)
      ensures after == before + [State()]
      ensures hit == SnapshotCollides(State())
      ensures NoHitBefore(before, |before|) ==> NoHitBefore(after, |before|)
      ensures NoHitBefore(before, |before|) && !hit ==> NoHitBefore(after, |before| + 1)
    {
      hit := Frame(input);
      TraceExtends(before, inputs, rand, State());
      after := before + [State()];
    }

    /** playGame's loop over the frames the host delivers, stopping after the frame in which quit
        arrives or at the first collision. The ghost trace holds the state before each frame and
        after the last one. */
    method RunFrames(inputs: seq<Input>) returns (frames: nat, ghost trace: seq<Snapshot>)
      requires Valid() && !gameOver
      modifies this`playerX, this`playerY, obstacles, this`obstacleCount, this`randCalls,
               this`obstacleGenProb, this`score, this`gameOver
      ensures Valid()
      ensures frames <= |inputs| && (|inputs| > 0 ==> 1 <= frames)
      ensures IsTrace(trace, inputs, rand) && |trace| == frames + 1
      ensures trace[0] == old(State()) && trace[frames] == State()
      ensures NoHitBefore(trace, frames) && NoQuitBefore(inputs, frames - 1)
      ensures frames < |inputs| ==> gameOver || inputs[frames - 1].quit
      ensures 1 <= frames ==> (gameOver <==> SnapshotCollides(trace[frames]))
      ensures frames == 0 ==> !gameOver
    {
      frames := 0;
      trace := [State()];
      var quit := false;
      while !quit && frames < |inputs|
        invariant Valid() && !gameOver
        invariant frames <= |inputs|
        invariant IsTrace(trace, inputs, rand) && |trace| == frames + 1
        invariant trace[0] == old(State()) && trace[frames] == State()
        invariant NoHitBefore(trace, frames + 1)
        invariant if quit then 1 <= frames && inputs[frames - 1].quit && NoQuitBefore(inputs, frames - 1)
                  else NoQuitBefore(inputs, frames)
      {
        var input := inputs[frames];
        quit := input.quit;
        var hit;
        hit, trace := TracedFrame(input, inputs, trace);
        frames := frames + 1;
        if hit {
          ghost var last := State();
          gameOver := true;
          assert State() == last;
          break;
        }
      }
    }

    /** playGame without drawing, sound and the score file: the frame loop, then the top-score
        update. Every frame leaves the player in range and never lowers the score. */
    method PlayGame(inputs: seq<Input>) returns (frames: nat, ghost trace: seq<Snapshot>)
      requires Valid() && !gameOver
      modifies this`playerX, this`playerY, obstacles, this`obstacleCount, this`randCalls,
               this`obstacleGenProb, this`score, this`gameOver, this`topScore
      ensures Valid()
      ensures frames <= |inputs| && (|inputs| > 0 ==> 1 <= frames)
      ensures IsTrace(trace, inputs, rand) && |trace| == frames + 1
      ensures trace[0] == old(State()) && trace[frames] == State()
      ensures NoHitBefore(trace, frames) && NoQuitBefore(inputs, frames - 1)
      ensures frames < |inputs| ==> gameOver || inputs[frames - 1].quit
      ensures 1 <= frames ==> (gameOver <==> Collides(playerX, playerY, obstacles[..]))
      ensures frames == 0 ==> !gameOver
      ensures 1 <= frames ==> 0.0 <= playerX <= 1.0 - PlayerWidth && 0.0 <= playerY <= 1.0 - PlayerHeight
      ensures score >= old(score)
      ensures topScore >= old(topScore) && topScore >= score
      ensures topScore == old(topScore) || topScore == score
    {
      frames, trace := RunFrames(inputs);
      if 1 <= frames {
        assert trace[frames] == FrameStep(trace[frames - 1], inputs[frames - 1], rand);
      }
      TraceScore(trace, inputs, rand);
      UpdateTopScore();
    }

    /** The "try again" answer to the game-over prompt: clear the flag and reset the game. */
    method Restart()
      requires obstacles.Length == MaxNumOfObstacles && Fractions(rand)
      modifies this`gameOver, this`score, this`playerX, this`playerY, obstacles, this`obstacleCount,
               this`obstacleGenProb
      ensures Valid() && !gameOver
      ensures score == 0 && playerX == StartX && playerY == StartY
      ensures obstacleCount == 0 && obstacleGenProb == InitObstacleGenProbability
      ensures !Collides(playerX, playerY, obstacles[..])
    {
      gameOver := false;
      ResetGame();
      EmptyTableNoCollision(playerX, playerY, obstacles[..]);
    }
  }

  /** A game whose every draw is 1.0 never passes the spawn gate (the probability stays at most
      0.05): after n idle frames the table is still empty, nothing has scored, nothing collides,
      and each frame has taken exactly one draw. */
  method NeverSpawning(n: nat) returns (g: Game)
    ensures g.Valid()
    ensures forall j :: 0 <= j < g.obstacles.Length ==> g.obstacles[j].None?
    ensures g.score == 0 && g.obstacleCount == 0 && g.randCalls == n
    ensures !Collides(g.playerX, g.playerY, g.obstacles[..])
  {
    g := new Game((k: nat) => 1.0, 0);
    var i := 0;
    while i < n
      invariant i <= n
      invariant g.Valid() && g.rand == (k: nat) => 1.0
      invariant g.score == 0 && g.randCalls == i
      invariant forall j :: 0 <= j < g.obstacles.Length ==> g.obstacles[j].None?
      invariant !Collides(g.playerX, g.playerY, g.obstacles[..])
    {
      OccupiedEmpty(g.obstacles[..]);
      AdvanceEmpty(g.obstacles[..]);
      var hit := g.Frame(Input(false, false, false, false, false));
      EmptyTableNoCollision(g.playerX, g.playerY, g.obstacles[..]);
      i := i + 1;
    }
    OccupiedEmpty(g.obstacles[..]);
  }
}
