/** A player of a match (`Player`): a name, a hand of cards and a score. */
module Players {
  import opened Wrappers
  import opened Sequences
  import opened Cards

  class Player {
    const nome: string
    /** The cards in hand, in the order they were received. */
    var mao: seq<Carta>
    var pontos: int

    /** A player with an empty hand and no points. */
    constructor (nome: string)
      ensures this.nome == nome && mao == [] && pontos == 0
    {
      this.nome := nome;
      mao := [];
      pontos := 0;
    }

    /** Adds `carta` at the end of the hand. */
    method ReceberCarta(carta: Carta)
      modifies this
      ensures mao == old(mao) + [carta]
      ensures pontos == old(pontos)
    {
      mao := mao + [carta];
    }

    /**
      * Plays the card at `randPos` (the position `Math.floor(Math.random() * mao.length)` picks: 0 on
      * an empty hand) and takes exactly that card out of the hand. On an empty hand the result is
      * `None` (`undefined`).
      */
    method UsarCarta(randPos: nat) returns (jogada: Option<Carta>)
      requires randPos < |mao| || randPos == 0
      modifies this
      ensures old(mao) == [] ==> jogada == None && mao == []
      ensures old(mao) != [] ==> jogada == Some(old(mao)[randPos]) && mao == RemoveAt(old(mao), randPos)
      ensures pontos == old(pontos)
    {
      if |mao| == 0 {
        jogada := None;
      } else {
        jogada := Some(mao[randPos]);
        mao := RemoveAt(mao, randPos);
      }
    }

    /** Adds `pontos` to the score and leaves the hand alone. */
    method AdicionarPontos(pontos: int)
      modifies this
      ensures ConsultarPontos() == old(ConsultarPontos()) + pontos
      ensures mao == old(mao)
    {
      this.pontos := this.pontos + pontos;
    }

    /** The score so far. */
    function ConsultarPontos(): int
      reads this
    {
      pontos
    }
  }

  /** The scores of `ps`, seat by seat. */
  function Scores(ps: seq<Player>): (r: seq<int>)
    reads ps
    ensures |r| == |ps| && forall i :: 0 <= i < |ps| ==> r[i] == ps[i].pontos
  {
    seq(|ps|, i reads ps requires 0 <= i < |ps| => ps[i].ConsultarPontos())
  }

  /** The hands of `ps`, seat by seat. */
  function Hands(ps: seq<Player>): (r: seq<seq<Carta>>)
    reads ps
    ensures |r| == |ps| && forall i :: 0 <= i < |ps| ==> r[i] == ps[i].mao
  {
    seq(|ps|, i reads ps requires 0 <= i < |ps| => ps[i].mao)
  }

  /** A team's total: the `reduce` of `consultarPontos` over its members. */
  function TeamPoints(team: seq<Player>): int
    reads team
  {
    SumInts(Scores(team))
  }
}
