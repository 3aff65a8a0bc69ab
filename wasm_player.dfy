/**
 * The game player's console and boot sequence (src/components/WasmPlayer.tsx).
 * The effect that runs when `gameId` or `theme` changes clears the console, sets
 * the loading flag and schedules four timer callbacks; timers are modelled as
 * an ordered list of pending callbacks that fire one at a time, earliest first.
 */
module WasmPlayer {
  import opened Seqs

  /** Lines the console keeps (`prev.slice(-4)` plus the new line). */
  const ConsoleCapacity: nat := 5

  /** `s.slice(-n)` for `n > 0`: the last `n` elements, or all of them when there are fewer. */
  function Last(s: seq<string>, n: nat): (r: seq<string>)
    requires n > 0
    ensures |r| == if |s| <= n then |s| else n
  {
    if |s| <= n then s else s[|s| - n..]
  }

  /** Trimming to the last five lines before appending more does not change the last five after. */
  lemma LastOfLast(u: seq<string>, rest: seq<string>)
    ensures Last(Last(u, ConsoleCapacity) + rest, ConsoleCapacity) == Last(u + rest, ConsoleCapacity)
  {
    if |u| > ConsoleCapacity {
      assert Last(u, ConsoleCapacity) + rest == (u + rest)[|u| - ConsoleCapacity..];
    }
  }

  /** `addLog(msg)`: keep the last four lines and append `msg`. */
  function AddLog(log: seq<string>, msg: string): (r: seq<string>)
    ensures |r| == if |log| < ConsoleCapacity then |log| + 1 else ConsoleCapacity
    ensures r[|r| - 1] == msg
    ensures forall i {:trigger r[i]} :: 0 <= i < |r| - 1 ==> r[i] == log[|log| - (|r| - 1) + i]
  {
    Last(log, ConsoleCapacity - 1) + [msg]
  }

  /** `addLog` applied to each message in turn. */
  function AddLogs(log: seq<string>, msgs: seq<string>): seq<string>
    decreases |msgs|
  {
    if msgs == [] then log else AddLogs(AddLog(log, msgs[0]), msgs[1..])
  }

  /** One `addLog` keeps the last five lines of the console followed by the message. */
  lemma AddLogIsLastFive(log: seq<string>, msg: string)
    ensures AddLog(log, msg) == Last(log + [msg], ConsoleCapacity)
  {
    if |log| >= ConsoleCapacity {
      assert (log + [msg])[|log| + 1 - ConsoleCapacity..] == log[|log| - (ConsoleCapacity - 1)..] + [msg];
    }
  }

  /** Any number of `addLog` calls leave exactly the last five lines written, oldest first. */
  lemma {:induction false} AddLogsKeepsLastFive(log: seq<string>, msgs: seq<string>)
    requires |log| <= ConsoleCapacity
    ensures AddLogs(log, msgs) == Last(log + msgs, ConsoleCapacity)
    decreases |msgs|
  {
    if msgs == [] {
      assert log + msgs == log;
    } else {
      var next := AddLog(log, msgs[0]);
      assert AddLogs(log, msgs) == AddLogs(next, msgs[1..]);
      AddLogIsLastFive(log, msgs[0]);
      AddLogsKeepsLastFive(next, msgs[1..]);
      LastOfLast(log + [msgs[0]], msgs[1..]);
      AppendAssociative(log, [msgs[0]], msgs[1..]);
      assert [msgs[0]] + msgs[1..] == msgs;
    }
  }

  /**
   * A scheduled timer callback: `Append` logs one line; `Boot` is the final
   * callback, which logs its lines, clears the loading flag and starts the game loop.
   */
  datatype Callback = Append(delay: nat, line: string) | Boot(delay: nat, lines: seq<string>)

  /** The callbacks scheduled by the effect, in the order of their delays. */
  function BootSequence(gameId: string, theme: string): (r: seq<Callback>)
    ensures |r| == 4
    ensures forall i :: 0 <= i < 3 ==> r[i].Append? && r[i].delay < r[i + 1].delay
    ensures r[3].Boot? && |r[3].lines| == 2
  {
    if theme == "light" then
      [ Append(200, "> Harmonizing metadata..."),
        Append(800, "> Ascending " + gameId + ".wasm..."),
        Append(1500, "> Spiritually instantiating WASM..."),
        Boot(2500, ["> Divine runtime ready.", "> Let there be motion..."]) ]
    else
      [ Append(200, "> Corrupting metadata..."),
        Append(800, "> Summoning " + gameId + ".wasm from the abyss..."),
        Append(1500, "> Forcing WASM instantiation..."),
        Boot(2500, ["> The Void has initialized.", "> Executing shadow loop..."]) ]
  }

  /** The observable state the callbacks change. */
  datatype PlayerState = PlayerState(console: seq<string>, isLoading: bool, looping: bool)

  /** The state the effect resets to. */
  const Cleared := PlayerState([], true, false)

  /** What one callback does to the state. */
  function Fire(s: PlayerState, cb: Callback): (r: PlayerState)
    ensures r.console == AddLogs(s.console, Logged(cb))
    ensures r.isLoading == (s.isLoading && cb.Append?)
    ensures r.looping == (s.looping || cb.Boot?)
  {
    match cb
    case Append(_, line) =>
      assert [line][1..] == [];
      s.(console := AddLog(s.console, line))
    case Boot(_, lines) => PlayerState(AddLogs(s.console, lines), false, true)
  }

  /** The callbacks fired in order. */
  function FireAll(s: PlayerState, cbs: seq<Callback>): PlayerState
    decreases |cbs|
  {
    if cbs == [] then s else FireAll(Fire(s, cbs[0]), cbs[1..])
  }

  /** The lines one callback logs. */
  function Logged(cb: Callback): seq<string>
  {
    match cb
    case Append(_, line) => [line]
    case Boot(_, lines) => lines
  }

  /** All lines the callbacks log, in order. */
  function Lines(cbs: seq<Callback>): seq<string>
  {
    if cbs == [] then [] else Logged(cbs[0]) + Lines(cbs[1..])
  }

  /** One callback keeps the last five lines of the console followed by what it logs. */
  lemma FireConsole(s: PlayerState, cb: Callback)
    requires |s.console| <= ConsoleCapacity
    ensures Fire(s, cb).console == Last(s.console + Logged(cb), ConsoleCapacity)
  {
    match cb
    case Append(_, line) => AddLogIsLastFive(s.console, line);
    case Boot(_, lines) => AddLogsKeepsLastFive(s.console, lines);
  }

  /** Firing a non-empty list of callbacks fires the first, then the rest. */
  lemma FireAllStep(s: PlayerState, cbs: seq<Callback>)
    requires cbs != []
    ensures FireAll(s, cbs) == FireAll(Fire(s, cbs[0]), cbs[1..])
    ensures Lines(cbs) == Logged(cbs[0]) + Lines(cbs[1..])
  {
  }

  /** Firing callbacks from a short enough console logs their lines, keeping the last five. */
  lemma {:induction false} FireAllConsole(s: PlayerState, cbs: seq<Callback>)
    requires |s.console| <= ConsoleCapacity
    ensures FireAll(s, cbs).console == Last(s.console + Lines(cbs), ConsoleCapacity)
    decreases |cbs|
  {
    if cbs == [] {
      assert s.console + Lines(cbs) == s.console;
    } else {
      var t := Fire(s, cbs[0]);
      FireAllStep(s, cbs);
      FireConsole(s, cbs[0]);
      FireAllConsole(t, cbs[1..]);
      LastOfLast(s.console + Logged(cbs[0]), Lines(cbs[1..]));
      AppendAssociative(s.console, Logged(cbs[0]), Lines(cbs[1..]));
    }
  }

  /** Whenever the last callback fired is the boot callback, loading is over and the loop runs. */
  lemma {:induction false} FireAllEndsBooted(s: PlayerState, cbs: seq<Callback>)
    requires cbs != [] && cbs[|cbs| - 1].Boot?
    ensures !FireAll(s, cbs).isLoading && FireAll(s, cbs).looping
    decreases |cbs|
  {
    var t := Fire(s, cbs[0]);
    FireAllStep(s, cbs);
    if |cbs| == 1 {
      assert cbs[1..] == [];
      assert !t.isLoading && t.looping;
    } else {
      assert cbs[1..][|cbs| - 2] == cbs[|cbs| - 1];
      FireAllEndsBooted(t, cbs[1..]);
    }
  }

  /** The boot sequence logs three lines and then the boot callback's two. */
  lemma BootSequenceLines(gameId: string, theme: string)
    ensures Lines(BootSequence(gameId, theme)) ==
            [BootSequence(gameId, theme)[0].line, BootSequence(gameId, theme)[1].line,
             BootSequence(gameId, theme)[2].line] + BootSequence(gameId, theme)[3].lines
  {
    var cbs := BootSequence(gameId, theme);
    assert cbs[1..][1..] == cbs[2..] && cbs[2..][1..] == cbs[3..] && cbs[3..][1..] == [];
    assert Lines(cbs[3..]) == cbs[3].lines;
    assert Lines(cbs[2..]) == [cbs[2].line] + Lines(cbs[3..]);
    assert Lines(cbs[1..]) == [cbs[1].line] + Lines(cbs[2..]);
  }

  /**
   * Running the whole boot sequence from a cleared console logs exactly its
   * five lines, none dropped, and ends with loading finished and the loop started.
   */
  lemma BootSequenceCompletes(gameId: string, theme: string)
    ensures FireAll(Cleared, BootSequence(gameId, theme)) ==
            PlayerState(Lines(BootSequence(gameId, theme)), false, true)
    ensures |Lines(BootSequence(gameId, theme))| == ConsoleCapacity
  {
    var cbs := BootSequence(gameId, theme);
    BootSequenceLines(gameId, theme);
    FireAllConsole(Cleared, cbs);
    FireAllEndsBooted(Cleared, cbs);
    assert Cleared.console + Lines(cbs) == Lines(cbs);
  }

  /** Before the final (2500 ms) callback has fired the player is still loading. */
  lemma LoadingUntilBoot(gameId: string, theme: string, k: nat)
    requires k < 4
    ensures FireAll(Cleared, BootSequence(gameId, theme)[..k]).isLoading
    ensures !FireAll(Cleared, BootSequence(gameId, theme)[..k]).looping
  {
    var cbs := BootSequence(gameId, theme);
    var s := Cleared;
    var i := 0;
    while i < k
      invariant i <= k
      invariant FireAll(Cleared, cbs[..k]) == FireAll(s, cbs[i..k])
      invariant s.isLoading && !s.looping
    {
      assert cbs[i..k][1..] == cbs[i + 1..k];
      s := Fire(s, cbs[i]);
      i := i + 1;
    }
  }

  /**
   * The mounted player. `pending` holds the timer callbacks that have been
   * scheduled and neither fired nor cleared, earliest first.
   */
  class Player {
    var consoleOutput: seq<string>
    var isLoading: bool
    var looping: bool
    var pending: seq<Callback>

    function State(): PlayerState
      reads this
    {
      PlayerState(consoleOutput, isLoading, looping)
    }

    /** Mounting runs the effect on the initial state (`[]`, loading). */
    constructor (gameId: string, theme: string)
      ensures State() == Cleared
      ensures pending == BootSequence(gameId, theme)
    {
      consoleOutput := [];
      isLoading := true;
      looping := false;
      pending := BootSequence(gameId, theme);
    }

    /** The effect's cleanup: clear every pending timeout and cancel the animation frame. */
    method Cleanup()
      modifies this
      ensures pending == []
      ensures consoleOutput == old(consoleOutput) && isLoading == old(isLoading)
      ensures !looping
    {
      pending := [];
      looping := false;
    }

    /** A change of `gameId` or `theme`: the old effect is cleaned up and the new one runs. */
    method Rerun(gameId: string, theme: string)
      modifies this
      ensures State() == Cleared
      ensures pending == BootSequence(gameId, theme)
    {
      Cleanup();
      consoleOutput := [];
      isLoading := true;
      pending := BootSequence(gameId, theme);
    }

    /** The earliest pending timer fires; with none pending nothing happens. */
    method Tick()
      modifies this
      ensures old(pending) == [] ==> State() == old(State()) && pending == []
      ensures old(pending) != [] ==>
        State() == Fire(old(State()), old(pending)[0]) && pending == old(pending)[1..]
    {
      if pending != [] {
        var cb := pending[0];
        pending := pending[1..];
        match cb
        case Append(_, line) =>
          consoleOutput := AddLog(consoleOutput, line);
        case Boot(_, lines) =>
          var i := 0;
          while i < |lines|
            invariant i <= |lines|
            invariant pending == old(pending)[1..]
            invariant AddLogs(consoleOutput, lines[i..]) == AddLogs(old(consoleOutput), lines)
          {
            assert lines[i..][1..] == lines[i + 1..];
            consoleOutput := AddLog(consoleOutput, lines[i]);
            i := i + 1;
          }
          assert lines[i..] == [];
          isLoading := false;
          looping := true;
      }
    }

    /** Lets every pending timer fire, in order. */
    method RunPending()
      modifies this
      ensures pending == []
      ensures State() == FireAll(old(State()), old(pending))
    {
      while pending != []
        invariant FireAll(State(), pending) == FireAll(old(State()), old(pending))
        decreases |pending|
      {
        Tick();
      }
    }
  }

  /** Width and height of the canvas, and the side of the square. */
  const CanvasWidth: int := 800
  const CanvasHeight: int := 450
  const SquareSize: int := 30

  /**
   * One axis of `render`: reverse the velocity when the square is past the far
   * edge or before the near one, then move.
   */
  function Bounce(pos: int, vel: int, extent: int): (r: (int, int))
    ensures r.1 == vel || r.1 == -vel
    ensures r.0 == pos + r.1
  {
    var v := if pos + SquareSize > extent || pos < 0 then -vel else vel;
    (pos + v, v)
  }

  /**
   * The invariant of one axis: speed 4, the square overshoots an edge by at
   * most one step, and an overshooting square is still moving outward, so the
   * next step reverses it and brings it back inside.
   */
  predicate AxisOk(pos: int, vel: int, extent: int)
  {
    (vel == 4 || vel == -4) &&
    -4 <= pos <= extent - SquareSize + 4 &&
    (pos < 0 ==> vel < 0) &&
    (pos + SquareSize > extent ==> vel > 0)
  }

  /** A bounce on an axis at least 38 long keeps the axis invariant. */
  lemma BounceKeepsAxis(pos: int, vel: int, extent: int)
    requires extent >= SquareSize + 8 && AxisOk(pos, vel, extent)
    ensures AxisOk(Bounce(pos, vel, extent).0, Bounce(pos, vel, extent).1, extent)
  {
  }

  /** The animated square of the game loop (`x`, `y`, `dx`, `dy` in `startGameLoop`). */
  class Square {
    var x: int
    var y: int
    var dx: int
    var dy: int

    predicate Valid()
      reads this
    {
      AxisOk(x, dx, CanvasWidth) && AxisOk(y, dy, CanvasHeight)
    }

    constructor ()
      ensures Valid()
      ensures x == 50 && y == 50 && dx == 4 && dy == 4
    {
      x, y, dx, dy := 50, 50, 4, 4;
    }

    /** The position and velocity step of one `render` frame. */
    method Render()
      requires Valid()
      modifies this
      ensures Valid()
      ensures (x, dx) == Bounce(old(x), old(dx), CanvasWidth)
      ensures (y, dy) == Bounce(old(y), old(dy), CanvasHeight)
    {
      BounceKeepsAxis(x, dx, CanvasWidth);
      BounceKeepsAxis(y, dy, CanvasHeight);
      if x + SquareSize > CanvasWidth || x < 0 {
        dx := -dx;
      }
      if y + SquareSize > CanvasHeight || y < 0 {
        dy := -dy;
      }
      x := x + dx;
      y := y + dy;
    }
  }
}
