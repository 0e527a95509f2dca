/**
 The turn rules of the Simon game in PlayActivity, as pure transitions over a
 snapshot of the activity's fields. Each function is one event handler of the
 activity: `OnCreate` (the field initialisation), `Cpu` (the cpu's append
 step), `Jugar` (one tap), `Truco` (the hint) and `OnLongClick` (the hidden
 gesture). The class in play_activity.dfy performs the same updates in place and
 is proved to agree with these functions.
 */
module SimonRules {

  /** NUMERO_MAXIMO: the largest number the cpu adds to the series. */
  const NumeroMaximo: int := 6

  /** Number of rounds when the launching intent carries no difficulty. */
  const TurnosPorDefecto: int := 6

  /** From this many rounds on, the hint gesture is not reset after use. */
  const TurnosDificil: int := 12

  datatype Option<T> = None | Some(value: T)

  /** What a tap makes the activity do: show the victory screen, show the
      defeat screen, schedule the cpu's next append, or nothing. */
  datatype Outcome = Victory | Defeat | NextRound | Continue

  /** The activity's game fields: the series `cpu`, the replay position
      `index` (1-based), the round `turnoActual`, the round target `turnos`
      (TURNOS), the end flag `fin` and the gesture flags `paso1`, `paso2`. */
  datatype State = State(
    cpu: seq<int>,
    index: int,
    turnoActual: int,
    turnos: int,
    fin: bool,
    paso1: bool,
    paso2: bool)

  /** A number one of the six buttons stands for. */
  predicate InRange(n: int) {
    1 <= n <= NumeroMaximo
  }

  predicate AllInRange(xs: seq<int>) {
    forall i :: 0 <= i < |xs| ==> InRange(xs[i])
  }

  /** Buttons enabled: the series of this round is complete and the player
      is replaying it. */
  predicate PlayerTurn(s: State) {
    !s.fin && |s.cpu| == s.turnoActual && 1 <= s.index <= s.turnoActual
  }

  /** Buttons disabled: the round has been entered (at start-up, or by a
      tap that completed the previous round) and the cpu has yet to append
      its number for it. */
  predicate AwaitingCpu(s: State) {
    !s.fin && |s.cpu| + 1 == s.turnoActual && s.index == 1
  }

  /** The game has ended; the final tap still moved `index` on by one. */
  predicate Over(s: State) {
    s.fin && |s.cpu| == s.turnoActual && 1 <= s.index <= s.turnoActual + 1
  }

  /** The invariant of every state the activity can reach. */
  predicate Valid(s: State) {
    && 1 <= s.turnoActual <= s.turnos
    && AllInRange(s.cpu)
    && (s.paso2 ==> s.paso1)
    && (AwaitingCpu(s) || PlayerTurn(s) || Over(s))
  }

  /** The state `onCreate` sets up; `dificultad` is the intent extra, absent
      when the activity was started without one. */
  function OnCreate(dificultad: Option<int>): (s: State)
    requires dificultad.Some? ==> dificultad.value >= 1
    ensures Valid(s) && AwaitingCpu(s)
    ensures s.cpu == [] && s.index == 1 && s.turnoActual == 1
    ensures !s.fin && !s.paso1 && !s.paso2
    ensures dificultad.None? ==> s.turnos == TurnosPorDefecto
    ensures dificultad.Some? ==> s.turnos == dificultad.value
  {
    var turnos := match dificultad
      case None => TurnosPorDefecto
      case Some(t) => t;
    State([], 1, 1, turnos, false, false, false)
  }

  /** The cpu's step: `n` is the random number it draws, in [1, 6]. */
  function Cpu(s: State, n: int): (r: State)
    requires InRange(n)
    ensures |r.cpu| == |s.cpu| + 1 && r.cpu[..|s.cpu|] == s.cpu && r.cpu[|s.cpu|] == n
    ensures r.index == s.index && r.turnoActual == s.turnoActual && r.turnos == s.turnos
    ensures r.fin == s.fin && r.paso1 == s.paso1 && r.paso2 == s.paso2
    ensures Valid(s) && AwaitingCpu(s) ==> Valid(r) && PlayerTurn(r) && r.index == 1
  {
    s.(cpu := s.cpu + [n])
  }

  /** One tap on button `numero`. Victory is tested against the round target
      before defeat; round advance is skipped once the game has ended; and
      `index` moves on by one in every case, including after the end. */
  function Jugar(s: State, numero: int): (r: (State, Outcome))
    requires 1 <= s.index <= |s.cpu|
    ensures r.0.cpu == s.cpu && r.0.turnos == s.turnos
    ensures r.0.paso1 == s.paso1 && r.0.paso2 == s.paso2
    ensures s.fin ==> r.0.fin
    ensures r.1 == Defeat <==> numero != s.cpu[s.index - 1]
    ensures r.1 == Victory <==> numero == s.cpu[s.index - 1] && s.index == s.turnos
    ensures r.1 == Victory || r.1 == Defeat ==>
              r.0.fin && r.0.turnoActual == s.turnoActual && r.0.index == s.index + 1
    ensures r.1 == NextRound <==>
              !s.fin && numero == s.cpu[s.index - 1] && s.index == s.turnoActual < s.turnos
    ensures r.1 == NextRound ==>
              !r.0.fin && r.0.turnoActual == s.turnoActual + 1 && r.0.index == 1
    ensures r.1 == Continue ==>
              r.0.fin == s.fin && r.0.turnoActual == s.turnoActual && r.0.index == s.index + 1
    ensures Valid(s) && PlayerTurn(s) ==>
              && Valid(r.0)
              && (r.0.fin <==> r.1 == Victory || r.1 == Defeat)
              && (r.1 == Victory ==> s.turnoActual == s.turnos)
              && (r.1 == NextRound <==> AwaitingCpu(r.0))
              && (r.1 == Continue <==> PlayerTurn(r.0))
  {
    var objetivo := s.cpu[s.index - 1];
    var victoria := s.index == s.turnos && numero == objetivo;
    var derrota := !victoria && numero != objetivo;
    var fin := s.fin || victoria || derrota;
    var avanza := s.index == s.turnoActual && s.turnoActual < s.turnos && !fin;
    var r := s.(index := (if avanza then 0 else s.index) + 1,
                turnoActual := if avanza then s.turnoActual + 1 else s.turnoActual,
                fin := fin);
    (r, if victoria then Victory else if derrota then Defeat else if avanza then NextRound else Continue)
  }

  /** The hint: the numbers of the series from the replay position on, and
      the gesture flags cleared unless the game is in hard mode. */
  function Truco(s: State): (r: (State, seq<int>))
    requires 1 <= s.index <= |s.cpu| + 1
    ensures s.cpu[..s.index - 1] + r.1 == s.cpu
    ensures |r.1| == |s.cpu| - s.index + 1
    ensures r.0.cpu == s.cpu && r.0.index == s.index && r.0.turnoActual == s.turnoActual
    ensures r.0.turnos == s.turnos && r.0.fin == s.fin
    ensures s.turnos < TurnosDificil ==> !r.0.paso1 && !r.0.paso2
    ensures s.turnos >= TurnosDificil ==> r.0.paso1 == s.paso1 && r.0.paso2 == s.paso2
  {
    var s' := if s.turnos < TurnosDificil then s.(paso1 := false, paso2 := false) else s;
    (s', s.cpu[s.index - 1..])
  }

  /** A long press on button `boton`: 6 sets the first step, 1 sets the
      second once the first is set, and 3 shows the hint once both are set.
      Other buttons have no effect. */
  function OnLongClick(s: State, boton: int): (r: (State, Option<seq<int>>))
    requires 1 <= s.index <= |s.cpu| + 1
    ensures r.0.cpu == s.cpu && r.0.index == s.index && r.0.turnoActual == s.turnoActual
    ensures r.0.turnos == s.turnos && r.0.fin == s.fin
    ensures r.1.Some? <==> boton == 3 && s.paso1 && s.paso2
    ensures r.1.Some? ==> r.1.value == s.cpu[s.index - 1..]
    ensures r.0.paso1 ==> s.paso1 || boton == 6
    ensures r.0.paso2 ==> s.paso2 || (boton == 1 && s.paso1)
    ensures (s.paso2 ==> s.paso1) ==> (r.0.paso2 ==> r.0.paso1)
    ensures boton == 6 ==> r.0.paso1 && r.0.paso2 == s.paso2
    ensures boton == 1 ==> r.0.paso1 == s.paso1 && r.0.paso2 == (s.paso2 || s.paso1)
    ensures boton == 3 && s.paso1 && s.paso2 ==> r.0 == Truco(s).0
    ensures (boton != 1 && boton != 3 && boton != 6) || (boton == 3 && !(s.paso1 && s.paso2)) ==>
              r.0 == s
  {
    if boton == 1 then
      (if s.paso1 then s.(paso2 := true) else s, None)
    else if boton == 3 then
      if s.paso1 && s.paso2 then
        var (s', numeros) := Truco(s);
        (s', Some(numeros))
      else
        (s, None)
    else if boton == 6 then
      (s.(paso1 := true), None)
    else
      (s, None)
  }
}
