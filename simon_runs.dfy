/**
 Whole games: the activity driven by a sequence of events. An event the
 activity would not receive in the current state (a tap while the buttons are
 disabled or covered by the end screen, the cpu's append outside the pending
 round) leaves the state as it is.
 */
module SimonRuns {
  import opened SimonRules

  /** A tap on a button, the cpu's delayed append of the number it drew, or a
      long press on a button. */
  datatype Event = Tap(numero: int) | CpuTurn(numeroNuevo: int) | LongPress(boton: int)

  /** A game-ending outcome. */
  predicate Ends(o: Outcome) {
    o == Victory || o == Defeat
  }

  /** One event; a tap yields the outcome of `jugar`. */
  function Step(s: State, e: Event): (r: (State, seq<Outcome>))
    ensures r.0.turnos == s.turnos && s.cpu <= r.0.cpu
    ensures |r.1| <= 1
    ensures s.fin ==> r == (s, [])
    ensures Valid(s) ==> Valid(r.0)
    ensures Valid(s) && !s.fin ==> (r.0.fin <==> |r.1| == 1 && Ends(r.1[0]))
    ensures !s.paso1 && r.0.paso1 ==> e == LongPress(6)
    ensures !s.paso2 && r.0.paso2 ==> e == LongPress(1) && s.paso1
  {
    match e
    case Tap(numero) =>
      if PlayerTurn(s) then
        var (s', o) := Jugar(s, numero);
        (s', [o])
      else
        (s, [])
    case CpuTurn(numeroNuevo) =>
      if AwaitingCpu(s) && InRange(numeroNuevo) then (Cpu(s, numeroNuevo), []) else (s, [])
    case LongPress(boton) =>
      if PlayerTurn(s) then (OnLongClick(s, boton).0, []) else (s, [])
  }

  /** The events `es` in order, with the outcomes of the taps among them. */
  function Run(s: State, es: seq<Event>): (r: (State, seq<Outcome>))
    ensures |r.1| <= |es|
    ensures s.fin ==> r == (s, [])
    decreases |es|
  {
    if es == [] then
      (s, [])
    else
      var (s1, os1) := Step(s, es[0]);
      var (s2, os2) := Run(s1, es[1..]);
      (s2, os1 + os2)
  }

  /** Every run from a reachable state keeps the invariant and the round
      target, only appends to the series, and ends the game at most once: the
      state is ended exactly when the run's last outcome is a victory or a
      defeat, and no earlier outcome is. */
  lemma {:induction false} RunKeepsInvariant(s: State, es: seq<Event>)
    requires Valid(s)
    ensures var (f, os) := Run(s, es);
      && Valid(f) && f.turnos == s.turnos && s.cpu <= f.cpu
      && (s.fin ==> f.fin)
      && (!s.fin ==> (f.fin <==> |os| > 0 && Ends(os[|os| - 1])))
      && (forall i :: 0 <= i < |os| - 1 ==> !Ends(os[i]))
    decreases |es|
  {
    if es != [] {
      var (s1, os1) := Step(s, es[0]);
      RunKeepsInvariant(s1, es[1..]);
      var (f, os2) := Run(s1, es[1..]);
      assert Run(s, es) == (f, os1 + os2);
      if os1 != [] && Ends(os1[0]) {
        assert s1.fin && os2 == [];
      }
      forall i | 0 <= i < |os1 + os2| - 1
        ensures !Ends((os1 + os2)[i])
      {
        if i >= |os1| {
          assert (os1 + os2)[i] == os2[i - |os1|];
        }
      }
    }
  }

  /** Running `a` and then `b` is running `a + b`. */
  lemma {:induction false} RunAppend(s: State, a: seq<Event>, b: seq<Event>)
    ensures Run(s, a + b) == (Run(Run(s, a).0, b).0, Run(s, a).1 + Run(Run(s, a).0, b).1)
    decreases |a|
  {
    if a == [] {
      assert a + b == b;
      assert [] + Run(s, b).1 == Run(s, b).1;
    } else {
      assert (a + b)[0] == a[0];
      assert (a + b)[1..] == a[1..] + b;
      var (s1, os1) := Step(s, a[0]);
      RunAppend(s1, a[1..], b);
      var (s2, os2) := Run(s1, a[1..]);
      var os3 := Run(s2, b).1;
      assert Run(s, a) == (s2, os1 + os2);
      assert os1 + (os2 + os3) == (os1 + os2) + os3;
    }
  }

  /** Nothing a later event does clears `fin` or takes a number out of the
      series: once the game has ended it stays ended, and the series of any
      later state extends that of any earlier one. */
  lemma FinAndSeriesMonotone(s: State, a: seq<Event>, b: seq<Event>)
    requires Valid(s)
    ensures Run(s, a).0.fin ==> Run(s, a + b).0.fin
    ensures Run(s, a).0.cpu <= Run(s, a + b).0.cpu
    ensures Run(s, a).0.fin ==> Run(s, a + b).0 == Run(s, a).0
  {
    RunAppend(s, a, b);
    RunKeepsInvariant(s, a);
    RunKeepsInvariant(Run(s, a).0, b);
  }

  /** Taps on the numbers of `xs`, in order. */
  function Taps(xs: seq<int>): seq<Event>
  {
    seq(|xs|, i requires 0 <= i < |xs| => Tap(xs[i]))
  }

  /** Replaying the series correctly from the current position finishes the
      round: every tap but the last continues, and the last one wins in the
      final round and schedules the next append otherwise. */
  lemma {:induction false} ReplayRound(s: State)
    requires Valid(s) && PlayerTurn(s)
    ensures var (f, os) := Run(s, Taps(s.cpu[s.index - 1..]));
      && |os| == |s.cpu| - s.index + 1
      && (forall i :: 0 <= i < |os| - 1 ==> os[i] == Continue)
      && f.cpu == s.cpu && f.turnos == s.turnos && f.paso1 == s.paso1 && f.paso2 == s.paso2
      && Valid(f)
      && (if s.turnoActual < s.turnos
          then os[|os| - 1] == NextRound && AwaitingCpu(f) && f.turnoActual == s.turnoActual + 1
          else os[|os| - 1] == Victory && f.fin && f.turnoActual == s.turnoActual)
    decreases |s.cpu| - s.index
  {
    var ts := Taps(s.cpu[s.index - 1..]);
    var (s1, o) := Jugar(s, s.cpu[s.index - 1]);
    assert Step(s, ts[0]) == (s1, [o]);
    if s.index == s.turnoActual {
      assert ts[1..] == [];
    } else {
      assert o == Continue && PlayerTurn(s1) && s1.index == s.index + 1;
      assert ts[1..] == Taps(s1.cpu[s1.index - 1..]);
      ReplayRound(s1);
    }
  }

  /** The hint is exactly what is left to type: after it is shown, tapping
      its numbers finishes the round. */
  lemma HintCompletesRound(s: State)
    requires Valid(s) && PlayerTurn(s)
    ensures var (t, numeros) := Truco(s);
      var (f, os) := Run(t, Taps(numeros));
      && |os| == |numeros| > 0
      && (forall i :: 0 <= i < |os| - 1 ==> os[i] == Continue)
      && os[|os| - 1] == (if s.turnoActual < s.turnos then NextRound else Victory)
  {
    ReplayRound(Truco(s).0);
  }

  /** The events of a perfect game in which the cpu draws `rs`: for each round,
      the cpu's append and then taps on the whole series so far. */
  function PerfectPlay(rs: seq<int>): (es: seq<Event>)
    decreases |rs|
  {
    if rs == [] then [] else PerfectPlay(rs[..|rs| - 1]) + ([CpuTurn(rs[|rs| - 1])] + Taps(rs))
  }

  /** One round of a perfect game: the cpu appends `x`, and the player taps
      back the whole series. The round ends in victory in the final round and
      with the next round pending otherwise; no other tap ends anything. */
  lemma PerfectRound(s: State, x: int)
    requires Valid(s) && AwaitingCpu(s) && InRange(x)
    ensures var (f, os) := Run(s, [CpuTurn(x)] + Taps(s.cpu + [x]));
      && |os| == |s.cpu| + 1
      && (forall i :: 0 <= i < |os| - 1 ==> os[i] == Continue)
      && f.cpu == s.cpu + [x] && f.turnos == s.turnos && f.paso1 == s.paso1 && f.paso2 == s.paso2
      && Valid(f)
      && (if s.turnoActual < s.turnos
          then os[|os| - 1] == NextRound && AwaitingCpu(f) && f.turnoActual == s.turnoActual + 1
          else os[|os| - 1] == Victory && f.fin)
  {
    var g := Cpu(s, x);
    RunAppend(s, [CpuTurn(x)], Taps(s.cpu + [x]));
    CpuTurnRun(s, x);
    assert g.cpu[g.index - 1..] == s.cpu + [x];
    ReplayRound(g);
  }

  lemma CpuTurnRun(s: State, x: int)
    requires Valid(s) && AwaitingCpu(s) && InRange(x)
    ensures Run(s, [CpuTurn(x)]) == (Cpu(s, x), [])
  {
  }

  /** No outcome of `os` ends the game. */
  predicate Undecided(os: seq<Outcome>) {
    forall i :: 0 <= i < |os| ==> os[i] == Continue || os[i] == NextRound
  }

  /** The outcomes of a perfect round appended to undecided ones: all but the
      round's last outcome stay undecided. */
  lemma UndecidedThenRound(os1: seq<Outcome>, os2: seq<Outcome>)
    requires Undecided(os1) && |os2| > 0
    requires forall i :: 0 <= i < |os2| - 1 ==> os2[i] == Continue
    ensures (os1 + os2)[..|os1 + os2| - 1] == os1 + os2[..|os2| - 1]
    ensures Undecided((os1 + os2)[..|os1 + os2| - 1])
    ensures (os1 + os2)[|os1 + os2| - 1] == os2[|os2| - 1]
    ensures os2[|os2| - 1] == NextRound ==> Undecided(os1 + os2)
  {
  }

  /** After a perfect replay of the first |rs| rounds the series is `rs`; if
      rounds remain, the next one is pending and no tap ended the game; after
      the last round the game is won, on the last tap and on no other. */
  lemma {:induction false} PerfectRounds(s: State, rs: seq<int>)
    requires Valid(s) && AwaitingCpu(s) && s.cpu == [] && !s.paso1 && !s.paso2
    requires |rs| <= s.turnos && AllInRange(rs)
    ensures var r := Run(s, PerfectPlay(rs));
      && r.0.cpu == rs && r.0.turnos == s.turnos && Valid(r.0) && !r.0.paso1 && !r.0.paso2
      && (|rs| < s.turnos ==> AwaitingCpu(r.0) && r.0.turnoActual == |rs| + 1 && Undecided(r.1))
      && (|rs| == s.turnos ==>
            r.0.fin && |r.1| > 0 && r.1[|r.1| - 1] == Victory && Undecided(r.1[..|r.1| - 1]))
    decreases |rs|
  {
    if rs == [] {
      assert Run(s, PerfectPlay(rs)) == (s, []);
    } else {
      var prev, x := rs[..|rs| - 1], rs[|rs| - 1];
      assert prev + [x] == rs;
      PerfectRounds(s, prev);
      var r1 := Run(s, PerfectPlay(prev));
      var round := [CpuTurn(x)] + Taps(rs);
      RunAppend(s, PerfectPlay(prev), round);
      assert r1.0.cpu + [x] == rs && r1.0.turnoActual == |rs|;
      PerfectRound(r1.0, x);
      var r2 := Run(r1.0, round);
      assert Run(s, PerfectPlay(rs)) == (r2.0, r1.1 + r2.1);
      UndecidedThenRound(r1.1, r2.1);
    }
  }

  /** A perfect replay wins: the game started with `dificultad` rounds, in
      which the cpu draws `rs` and the player taps back every round's series,
      ends in victory on the very last tap, and no earlier tap ends it. */
  lemma PerfectReplayWins(dificultad: Option<int>, rs: seq<int>)
    requires dificultad.Some? ==> dificultad.value >= 1
    requires |rs| == OnCreate(dificultad).turnos && AllInRange(rs)
    ensures var (f, os) := Run(OnCreate(dificultad), PerfectPlay(rs));
      && f.fin && f.cpu == rs && f.turnoActual == f.turnos
      && |os| > 0 && os[|os| - 1] == Victory && Undecided(os[..|os| - 1])
  {
    PerfectRounds(OnCreate(dificultad), rs);
  }

  /** Some event of `es` is a long press on `boton`. */
  predicate Pressed(es: seq<Event>, boton: int) {
    exists i :: 0 <= i < |es| && es[i] == LongPress(boton)
  }

  /** Some long press on `a` in `es` comes before some long press on `b`. */
  predicate PressedInOrder(es: seq<Event>, a: int, b: int) {
    exists i, k :: 0 <= i < k < |es| && es[i] == LongPress(a) && es[k] == LongPress(b)
  }

  /** The gesture flags of any later state are explained by the events in
      between: the first step needs a long press on 6, the second a long press
      on 1 after the first step was set. */
  lemma {:induction false} GestureFlags(s: State, es: seq<Event>)
    ensures var f := Run(s, es).0;
      && (f.paso1 ==> s.paso1 || Pressed(es, 6))
      && (f.paso2 ==> s.paso2 || (s.paso1 && Pressed(es, 1)) || PressedInOrder(es, 6, 1))
    decreases |es|
  {
    if es != [] {
      var s1 := Step(s, es[0]).0;
      GestureFlags(s1, es[1..]);
      var f := Run(s, es).0;
      assert f == Run(s1, es[1..]).0;
      if Pressed(es[1..], 6) {
        var i :| 0 <= i < |es[1..]| && es[1..][i] == LongPress(6);
        assert es[i + 1] == LongPress(6);
      }
      if Pressed(es[1..], 1) {
        var k :| 0 <= k < |es[1..]| && es[1..][k] == LongPress(1);
        assert es[k + 1] == LongPress(1);
        if es[0] == LongPress(6) {
          assert es[0] == LongPress(6) && es[k + 1] == LongPress(1);
        }
      }
      if PressedInOrder(es[1..], 6, 1) {
        var i, k :| 0 <= i < k < |es[1..]| && es[1..][i] == LongPress(6) && es[1..][k] == LongPress(1);
        assert es[i + 1] == LongPress(6) && es[k + 1] == LongPress(1);
      }
    }
  }

  /** From a fresh game, a long press on 3 shows the hint only if the events
      before it contain a long press on 6 followed later by one on 1. */
  lemma HintNeedsGesture(dificultad: Option<int>, es: seq<Event>)
    requires dificultad.Some? ==> dificultad.value >= 1
    ensures var f := Run(OnCreate(dificultad), es).0;
      PlayerTurn(f) && OnLongClick(f, 3).1.Some? ==> PressedInOrder(es, 6, 1)
  {
    GestureFlags(OnCreate(dificultad), es);
  }

  /** Conversely, long presses on 6, 1 and 3 show the hint from any state:
      the remaining numbers of the series. */
  lemma GestureShowsHint(s: State)
    requires 1 <= s.index <= |s.cpu| + 1
    ensures var s1 := OnLongClick(OnLongClick(s, 6).0, 1).0;
      OnLongClick(s1, 3).1 == Some(s.cpu[s.index - 1..])
  {
  }

  /** Right after the hint, a second long press on 3 shows it again exactly
      in hard mode: the gesture is reset only when there are fewer than 12
      rounds. */
  lemma SecondHintIffHard(s: State)
    requires 1 <= s.index <= |s.cpu| + 1 && s.paso1 && s.paso2
    ensures var s1 := OnLongClick(s, 3).0;
      OnLongClick(s1, 3).1.Some? <==> s.turnos >= TurnosDificil
  {
  }

  /** In the last round of a six-round game with the series 3 5 1 6 2 4, the
      taps 3 5 2 lose on the third tap and the game is over. */
  lemma DefeatExample()
    ensures var s := State([3, 5, 1, 6, 2, 4], 1, 6, 6, false, false, false);
      var (f, os) := Run(s, Taps([3, 5, 2]));
      os == [Continue, Continue, Defeat] && f.fin && f.index == 4
  {
  }

  /** At replay position 3 of the fifth round, with the series 3 5 1 6 2,
      the hint is 1 6 2. */
  lemma HintExample()
    ensures Truco(State([3, 5, 1, 6, 2], 3, 5, 9, false, true, true)).1 == [1, 6, 2]
  {
  }
}
