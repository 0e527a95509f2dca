/**
 The game part of PlayActivity as an object whose fields the event handlers
 update in place. Every method is proved to perform the transition of the
 matching function in SimonRules on the snapshot of its fields, and to keep the
 reachable-state invariant.
 */
module SimonActivity {
  import opened SimonRules

  /** The loop of `truco()`: the numbers of `serie` from position `desde` on,
      collected one by one in order. */
  method CollectFrom(serie: seq<int>, desde: int) returns (numeros: seq<int>)
    requires 0 <= desde <= |serie|
    ensures |numeros| == |serie| - desde
    ensures serie[..desde] + numeros == serie
  {
    numeros := [];
    var i := desde;
    while i < |serie|
      invariant desde <= i <= |serie|
      invariant numeros == serie[desde..i]
    {
      numeros := numeros + [serie[i]];
      i := i + 1;
    }
    assert serie[..desde] + serie[desde..i] == serie;
  }

  class PlayActivity {
    var cpu: seq<int>
    var index: int
    var turnoActual: int
    /** TURNOS: fixed for the whole game once `onCreate` has read it. */
    const turnos: int
    var fin: bool
    var paso1: bool
    var paso2: bool

    /** The game fields as a value. */
    function Snapshot(): State
      reads this
    {
      State(cpu, index, turnoActual, turnos, fin, paso1, paso2)
    }

    ghost predicate Valid()
      reads this
    {
      SimonRules.Valid(Snapshot())
    }

    /** `onCreate`: the round target comes from the intent extra, 6 when the
        extra is absent; the series starts empty and the cpu's first append
        follows the countdown. */
    constructor (dificultad: Option<int>)
      requires dificultad.Some? ==> dificultad.value >= 1
      ensures Snapshot() == OnCreate(dificultad)
      ensures Valid() && AwaitingCpu(Snapshot())
    {
      turnos := match dificultad
        case None => TurnosPorDefecto
        case Some(t) => t;
      cpu := [];
      index := 1;
      turnoActual := 1;
      paso1 := false;
      paso2 := false;
      fin := false;
    }

    /** `cpu()`: append the number `numeroNuevo` the cpu drew, in [1, 6]. */
    method Cpu(numeroNuevo: int)
      requires Valid() && AwaitingCpu(Snapshot()) && InRange(numeroNuevo)
      modifies this
      ensures Snapshot() == SimonRules.Cpu(old(Snapshot()), numeroNuevo)
      ensures cpu == old(cpu) + [numeroNuevo]
      ensures Valid() && PlayerTurn(Snapshot())
    {
      cpu := cpu + [numeroNuevo];
    }

    /** `jugar(numero)`: one tap while the buttons are enabled. */
    method Jugar(numero: int) returns (o: Outcome)
      requires Valid() && PlayerTurn(Snapshot())
      modifies this
      ensures (Snapshot(), o) == SimonRules.Jugar(old(Snapshot()), numero)
      ensures cpu == old(cpu) && paso1 == old(paso1) && paso2 == old(paso2)
      ensures Valid()
      ensures fin <==> o == Victory || o == Defeat
      ensures o == Victory ==> old(turnoActual) == turnos
      ensures o == NextRound <==> AwaitingCpu(Snapshot())
      ensures o == Continue <==> PlayerTurn(Snapshot())
    {
      o := Continue;
      if index == turnos && numero == cpu[index - 1] {
        fin := true;
        o := Victory;
      } else if numero != cpu[index - 1] {
        fin := true;
        o := Defeat;
      }
      if index == turnoActual && turnoActual < turnos && !fin {
        index := 0;
        turnoActual := turnoActual + 1;
        o := NextRound;
      }
      index := index + 1;
    }

    /** `truco()`: collect the numbers of the series from the replay position
        on, then clear the gesture unless the game is in hard mode. */
    method Truco() returns (numeros: seq<int>)
      requires Valid()
      modifies this`paso1, this`paso2
      ensures (Snapshot(), numeros) == SimonRules.Truco(old(Snapshot()))
      ensures numeros == cpu[index - 1..]
      ensures Valid()
    {
      numeros := CollectFrom(cpu, index - 1);
      if turnos < TurnosDificil {
        paso1 := false;
        paso2 := false;
      }
    }

    /** `onLongClick`: the hidden gesture is a long press on 6, then 1, then 3. */
    method OnLongClick(boton: int) returns (toast: Option<seq<int>>)
      requires Valid()
      modifies this`paso1, this`paso2
      ensures (Snapshot(), toast) == SimonRules.OnLongClick(old(Snapshot()), boton)
      ensures Valid()
    {
      toast := None;
      if boton == 1 {
        if paso1 {
          paso2 := true;
        }
      } else if boton == 3 {
        if paso1 && paso2 {
          var numeros := Truco();
          toast := Some(numeros);
        }
      } else if boton == 6 {
        paso1 := true;
      }
    }
  }
}
