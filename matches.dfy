/** A match of Bisca (`Bisca`): seating, dealing, tricks, re-seating and the final result. */
module Matches {
  import opened Wrappers
  import opened Sequences
  import opened Cards
  import opened Decks
  import opened Players
  import opened Tricks
  import opened Dealing

  /** The exception thrown when the names do not make a game of 2 or 4 players. */
  datatype SetupError = WrongPlayerCount

  /** The end of a match: a draw, or the names of the winning team; both with the two team totals. */
  datatype Resultado =
    | Empate(pontosTime1: int, pontosTime2: int)
    | Vitoria(ganhadores: seq<string>, pontosTime1: int, pontosTime2: int)

  /** The names that are given, in order: `filter` over the four names, `""` standing for a missing one. */
  function Present(names: seq<string>): (r: seq<string>)
    ensures |r| <= |names|
    ensures forall i :: 0 <= i < |r| ==> r[i] != ""
    ensures (forall i :: 0 <= i < |names| ==> names[i] != "") ==> r == names
    ensures forall x :: x in r <==> x in names && x != ""
  {
    if names == [] then []
    else (if names[0] != "" then [names[0]] else []) + Present(names[1..])
  }

  /** Filtering keeps the order: the names kept from `a + b` are those kept from `a`, then those kept from `b`. */
  lemma {:induction false} PresentAppend(a: seq<string>, b: seq<string>)
    ensures Present(a + b) == Present(a) + Present(b)
    decreases |a|
  {
    if a != [] {
      assert (a + b)[1..] == a[1..] + b;
      PresentAppend(a[1..], b);
    } else {
      assert a + b == b;
    }
  }

  lemma PresentUnfold(names: seq<string>)
    requires names != []
    ensures Present(names) == (if names[0] != "" then [names[0]] else []) + Present(names[1..])
    ensures names[1..] == [] ==> Present(names[1..]) == []
  {
  }

  /**
    * The constructor's check and seating as written: it throws when the first or second name is
    * missing or the third is given without the fourth, and otherwise seats every name given. A fourth
    * name without a third gets through, and seats three players.
    */
  function Validar(p1: string, p2: string, p3: string, p4: string): (r: Result<seq<string>, SetupError>)
    ensures r.Failure? <==> p1 == "" || p2 == "" || (p3 != "" && p4 == "")
    ensures r.Success? ==> 2 <= |r.value| <= 4 && r.value[..2] == [p1, p2]
    ensures r.Success? ==> forall i :: 0 <= i < |r.value| ==> r.value[i] != ""
    ensures r.Success? ==> (|r.value| == 4 <==> p3 != "")
    ensures r.Success? ==> (|r.value| == 3 <==> p3 == "" && p4 != "")
    ensures r.Success? ==> r.value == [p1, p2] + (if p3 != "" then [p3] else []) + (if p4 != "" then [p4] else [])
  {
    if p1 == "" || p2 == "" || (p3 != "" && p4 == "") then Failure(WrongPlayerCount)
    else
      PresentUnfold([p1, p2, p3, p4]);
      PresentUnfold([p2, p3, p4]);
      PresentUnfold([p3, p4]);
      PresentUnfold([p4]);
      Success(Present([p1, p2, p3, p4]))
  }

  /** The check as its message states it: two names, or four, and nothing else. */
  function ValidarIntended(p1: string, p2: string, p3: string, p4: string): (r: Result<seq<string>, SetupError>)
    ensures r.Failure? <==> p1 == "" || p2 == "" || (p3 == "") != (p4 == "")
    ensures r.Success? ==> |r.value| == 2 || |r.value| == 4
    ensures r.Success? ==> Validar(p1, p2, p3, p4) == r
  {
    if p1 == "" || p2 == "" || (p3 == "") != (p4 == "") then Failure(WrongPlayerCount)
    else Validar(p1, p2, p3, p4)
  }

  /** A fourth name given without a third is accepted, and the match then has three players. */
  lemma ThreeSeatsAccepted()
    ensures Validar("A", "B", "", "D") == Success(["A", "B", "D"])
    ensures ValidarIntended("A", "B", "", "D").Failure?
  {
    PresentUnfold(["D"]);
    assert Present(["D"]) == ["D"];
    PresentUnfold(["", "D"]);
    assert ["", "D"][1..] == ["D"];
    assert Present(["", "D"]) == ["D"];
    PresentUnfold(["B", "", "D"]);
    assert ["B", "", "D"][1..] == ["", "D"];
    assert Present(["B", "", "D"]) == ["B", "D"];
    PresentUnfold(["A", "B", "", "D"]);
    assert ["A", "B", "", "D"][1..] == ["B", "", "D"];
    assert Present(["A", "B", "", "D"]) == ["A", "B", "D"];
  }

  /**
    * The verdict of `finalizar` on the two team totals: equal totals are a draw; otherwise the team
    * with the strictly greater total wins.
    */
  function Decidir(pontosTime1: int, pontosTime2: int, nomes1: seq<string>, nomes2: seq<string>): (r: Resultado)
    ensures r.pontosTime1 == pontosTime1 && r.pontosTime2 == pontosTime2
    ensures r.Empate? <==> pontosTime1 == pontosTime2
    ensures r.Vitoria? && pontosTime1 > pontosTime2 ==> r.ganhadores == nomes1
    ensures r.Vitoria? && pontosTime2 > pontosTime1 ==> r.ganhadores == nomes2
  {
    if pontosTime1 == pontosTime2 then Empate(pontosTime1, pontosTime2)
    else
      var ganhadores := if pontosTime1 > pontosTime2 then nomes1 else nomes2;
      Vitoria(ganhadores, pontosTime1, pontosTime2)
  }

  /**
    * When all 120 points are shared out, the match is a draw exactly when each team has 60, and
    * otherwise the team holding more than 60 wins.
    */
  lemma DrawAtSixty(pontosTime1: int, pontosTime2: int, nomes1: seq<string>, nomes2: seq<string>)
    requires pontosTime1 + pontosTime2 == 120
    ensures Decidir(pontosTime1, pontosTime2, nomes1, nomes2).Empate? <==> pontosTime1 == 60
    ensures pontosTime1 > 60 ==> Decidir(pontosTime1, pontosTime2, nomes1, nomes2) == Vitoria(nomes1, pontosTime1, pontosTime2)
    ensures pontosTime1 < 60 ==> Decidir(pontosTime1, pontosTime2, nomes1, nomes2) == Vitoria(nomes2, pontosTime1, pontosTime2)
  {
  }

  /** The names of `ps`, seat by seat. */
  function Names(ps: seq<Player>): (r: seq<string>)
    ensures |r| == |ps| && forall i :: 0 <= i < |ps| ==> r[i] == ps[i].nome
  {
    seq(|ps|, i requires 0 <= i < |ps| => ps[i].nome)
  }

  /** The positions chosen in one trick: one per player, each inside a hand of `handSize` cards. */
  predicate TrickPicks(picks: seq<nat>, players: nat, handSize: nat)
  {
    |picks| == players && forall i :: 0 <= i < players ==> picks[i] < handSize
  }

  /** The picks of the three last tricks, played from hands of three, two and one cards. */
  predicate FinalPicks(trickPicks: seq<seq<nat>>, players: nat)
  {
    |trickPicks| == 3 && forall t :: 0 <= t < 3 ==> TrickPicks(trickPicks[t], players, 3 - t)
  }

  class Bisca {
    const baralho: Baralho
    /** The players in the order they play the next trick. */
    var players: seq<Player>
    /** The players at even seats of the original seating. */
    const time1: seq<Player>
    /** The players at odd seats of the original seating. */
    const time2: seq<Player>
    /** The original seating, which every re-seating rotates. */
    ghost const seats: seq<Player>
    /** The original seat of the player who plays first now. */
    ghost var lead: nat

    /**
      * The seating invariant: 2 to 4 different players, the current order a rotation of the original
      * seating, and the teams fixed by the original seats' parity.
      */
    ghost predicate Valid()
      reads this
    {
      && 2 <= |seats| <= 4
      && Distinct(seats)
      && lead < |seats|
      && players == Rotated(seats, lead)
      && time1 == EvenSeats(seats)
      && time2 == OddSeats(seats)
    }

    /** Every player of the current order is one of the original seats, and no one sits twice. */
    lemma SeatingFacts()
      requires Valid()
      ensures Distinct(players) && |players| == |seats|
      ensures forall p :: p in players ==> p in seats
    {
      RotatedPermutation(seats, lead);
      RotatedDistinct(seats, lead);
      forall p | p in players
        ensures p in seats
      {
        assert p in multiset(players);
      }
    }

    /** However the order has rotated, the two teams together hold every player's points. */
    lemma TeamsShareAllPoints()
      requires Valid()
      ensures TeamPoints(time1) + TeamPoints(time2) == SumInts(Scores(players))
    {
      var all := Scores(seats);
      SeatsAt(seats);
      SeatsAt(all);
      assert Scores(time1) == EvenSeats(all);
      assert Scores(time2) == OddSeats(all);
      SeatsSum(all);
      assert Scores(players) == Rotated(all, lead);
      RotatedSum(all, lead);
    }

    /**
      * A match for the names `p1` .. `p4` (`""` for a name not given) with a deck built and shuffled
      * by `picks`; the source throws unless `Validar` accepts the names.
      */
    constructor (p1: string, p2: string, p3: string, p4: string, picks: seq<nat>)
      requires Validar(p1, p2, p3, p4).Success?
      requires ValidPicks(picks, DeckSize)
      ensures Valid() && lead == 0 && players == seats
      ensures Names(players) == Validar(p1, p2, p3, p4).value
      ensures forall i :: 0 <= i < |players| ==> fresh(players[i]) && players[i].mao == [] && players[i].pontos == 0
      ensures time1 == EvenSeats(players) && time2 == OddSeats(players)
      ensures fresh(baralho) && baralho.baralho == Shuffled(FullDeck(), picks)
      ensures multiset(baralho.baralho) == multiset(FullDeck())
    {
      var names := Validar(p1, p2, p3, p4).value;
      baralho := new Baralho(picks);
      var ps := NewPlayers(names);
      players := ps;
      time1 := EvenSeats(ps);
      time2 := OddSeats(ps);
      seats := ps;
      lead := 0;
      assert Rotated(ps, 0) == ps;
    }

    /** Gives each player, in the current order, the top card of the deck. */
    method DarCartas()
      requires Valid()
      requires baralho.CartasRestantes() >= |players|
      modifies baralho, seats
      ensures Valid() && players == old(players)
      ensures baralho.baralho == old(baralho.baralho)[|players|..]
      ensures Hands(players) == Dealt(old(Hands(players)), old(baralho.baralho))
      ensures Scores(players) == old(Scores(players))
    {
      SeatingFacts();
      ghost var hands, scores, deck := Hands(players), Scores(players), baralho.baralho;
      for i := 0 to |players|
        invariant Valid() && players == old(players)
        invariant baralho.baralho == deck[i..]
        invariant Hands(players) == PartlyDealt(hands, deck, i)
        invariant Scores(players) == scores
      {
        var cartaPuxada := PuxarCarta();
        ReceberCartaDe(i, cartaPuxada);
      }
    }

    /** `this.baralho.pegarCarta()` on a deck that is not empty: the top card leaves the deck, the players are untouched. */
    method PuxarCarta() returns (carta: Carta)
      requires Valid() && baralho.baralho != []
      modifies baralho
      ensures carta == old(baralho.baralho[0]) && baralho.baralho == old(baralho.baralho[1..])
      ensures Valid() && players == old(players)
      ensures Hands(players) == old(Hands(players)) && Scores(players) == old(Scores(players))
    {
      var puxada := baralho.PegarCarta();
      carta := puxada.value;
    }

    /** `player.receberCarta(cartaPuxada)` for the player at position `i`: only that hand grows. */
    method ReceberCartaDe(i: nat, carta: Carta)
      requires Distinct(players) && i < |players|
      modifies players[i]
      ensures Hands(players) == old(Hands(players))[i := old(players[i].mao) + [carta]]
      ensures Scores(players) == old(Scores(players))
      ensures players == old(players) && baralho.baralho == old(baralho.baralho)
    {
      players[i].ReceberCarta(carta);
      assert players == old(players) && baralho.baralho == old(baralho.baralho);
      forall k | 0 <= k < |players| && k != i
        ensures players[k].mao == old(players[k].mao) && players[k].pontos == old(players[k].pontos)
      {
        assert players[k] != players[i];
      }
    }

    /** Deals three rounds: every player gets the cards the three rounds deal to their seat. */
    method Iniciar()
      requires Valid()
      requires baralho.CartasRestantes() >= 3 * |players|
      modifies baralho, seats
      ensures Valid() && players == old(players)
      ensures baralho.baralho == old(baralho.baralho)[3 * |players|..]
      ensures Hands(players) == DealtThrice(old(Hands(players)), old(baralho.baralho))
      ensures Scores(players) == old(Scores(players))
    {
      ghost var d, h, n := baralho.baralho, Hands(players), |players|;
      ghost var decks := [d, d[n..], d[n + n..], d[3 * n..]];
      ghost var rounds := [h, Dealt(h, d), Dealt(Dealt(h, d), d[n..]), DealtThrice(h, d)];
      assert d[n..][n..] == d[n + n..] && d[n + n..][n..] == d[3 * n..];
      for r := 0 to 3
        invariant Valid() && players == old(players)
        invariant baralho.baralho == decks[r]
        invariant Hands(players) == rounds[r]
        invariant Scores(players) == old(Scores(players))
      {
        DarCartas();
      }
    }

    /**
      * One trick with `trunfo` as the trump card. Each player in order plays the card at their pick
      * and the best card so far is kept; the winner is credited with the points of all cards played;
      * then the order is rotated so that the winner plays first.
      */
    method Rodada(picks: seq<nat>, trunfo: Carta) returns (jogadas: seq<Carta>, indexGanhador: nat)
      requires Valid()
      requires PicksFit(Hands(players), picks)
      modifies this, seats
      ensures Valid()
      ensures jogadas == Played(old(Hands(players)), picks)
      ensures indexGanhador == WinnerIndex(jogadas, trunfo.naipe)
      ensures players == Rotated(old(players), indexGanhador)
      ensures Hands(players) == Rotated(AfterPlay(old(Hands(players)), picks), indexGanhador)
      ensures Scores(players) == Rotated(Credited(old(Scores(players)), indexGanhador, SumValues(jogadas)), indexGanhador)
      ensures baralho.baralho == old(baralho.baralho)
      ensures HandsValue(Hands(players)) + SumInts(Scores(players)) == old(HandsValue(Hands(players)) + SumInts(Scores(players)))
    {
      SeatingFacts();
      ghost var hands, scores := Hands(players), Scores(players);
      jogadas, indexGanhador := JogarEPontuar(picks, trunfo);
      Reordenar(indexGanhador);
      RodadaConserves(hands, scores, picks, indexGanhador);
    }

    /**
      * The trick without the re-seating: every player plays, and the winner is credited with the
      * points of all cards played. The seating and the deck stay as they were.
      */
    method JogarEPontuar(picks: seq<nat>, trunfo: Carta) returns (jogadas: seq<Carta>, indexGanhador: nat)
      requires Valid()
      requires PicksFit(Hands(players), picks)
      modifies players
      ensures Valid() && players == old(players) && baralho.baralho == old(baralho.baralho)
      ensures jogadas == Played(old(Hands(players)), picks)
      ensures indexGanhador == WinnerIndex(jogadas, trunfo.naipe)
      ensures Hands(players) == AfterPlay(old(Hands(players)), picks)
      ensures Scores(players) == Credited(old(Scores(players)), indexGanhador, SumValues(jogadas))
    {
      SeatingFacts();
      jogadas, indexGanhador := JogarCartas(picks, trunfo);
      var pontosRodada := SumValues(jogadas);
      Creditar(indexGanhador, pontosRodada);
    }

    /** `this.players[indexGanhador].adicionarPontos(pontosRodada)`: one score changes, nothing else. */
    method Creditar(indexGanhador: nat, pontosRodada: int)
      requires Distinct(players) && indexGanhador < |players|
      modifies players
      ensures Hands(players) == old(Hands(players))
      ensures Scores(players) == Credited(old(Scores(players)), indexGanhador, pontosRodada)
      ensures players == old(players) && baralho.baralho == old(baralho.baralho)
    {
      players[indexGanhador].AdicionarPontos(pontosRodada);
      forall j | 0 <= j < |players| && j != indexGanhador
        ensures players[j].mao == old(players[j].mao) && players[j].pontos == old(players[j].pontos)
      {
        assert players[j] != players[indexGanhador];
      }
    }

    /** Re-seats the players so that the winner of the trick plays first; hands and scores move with them. */
    method Reordenar(indexGanhador: nat)
      requires Valid() && indexGanhador < |players|
      modifies this
      ensures Valid()
      ensures players == Rotated(old(players), indexGanhador)
      ensures Hands(players) == Rotated(old(Hands(players)), indexGanhador)
      ensures Scores(players) == Rotated(old(Scores(players)), indexGanhador)
      ensures baralho.baralho == old(baralho.baralho)
    {
      var ps := players;
      var novaOrdemPlayers := NovaOrdem(indexGanhador);
      RotatedTwice(seats, lead, indexGanhador);
      players := novaOrdemPlayers;
      lead := CyclicSum(lead, indexGanhador, |seats|);
      assert baralho.baralho == old(baralho.baralho);
      assert Hands(ps) == old(Hands(players)) && Scores(ps) == old(Scores(players));
      ReseatKeepsPoints(ps, indexGanhador);
    }

    /**
      * The plays of a trick: each player in the current order plays the card at their pick, and the
      * scan keeps the best card so far and its position.
      */
    method JogarCartas(picks: seq<nat>, trunfo: Carta) returns (jogadas: seq<Carta>, indexGanhador: nat)
      requires Distinct(players) && |players| > 0
      requires PicksFit(Hands(players), picks)
      modifies players
      ensures jogadas == Played(old(Hands(players)), picks)
      ensures indexGanhador == WinnerIndex(jogadas, trunfo.naipe)
      ensures Hands(players) == AfterPlay(old(Hands(players)), picks)
      ensures Scores(players) == old(Scores(players))
      ensures players == old(players) && baralho.baralho == old(baralho.baralho)
    {
      var n := |players|;
      ghost var hands, scores := Hands(players), Scores(players);
      jogadas := [];
      var cartaGanhador: Option<Carta> := None;
      indexGanhador := 0;
      for i := 0 to n
        invariant |jogadas| == i
        invariant forall j {:trigger hands[j]} :: 0 <= j < i ==> jogadas[j] == hands[j][picks[j]]
        invariant Hands(players) == PartlyPlayed(hands, picks, i)
        invariant Scores(players) == scores
        invariant players == old(players) && baralho.baralho == old(baralho.baralho)
        invariant i == 0 <==> cartaGanhador.None?
        invariant i > 0 ==> indexGanhador == WinnerIndex(jogadas, trunfo.naipe) && cartaGanhador == Some(jogadas[indexGanhador])
      {
        var jogada := UsarCartaDe(i, picks[i]);
        if i > 0 {
          WinnerIndexSnoc(jogadas, jogada, trunfo.naipe);
        }
        jogadas := jogadas + [jogada];
        if cartaGanhador.None? || Beats(jogada, cartaGanhador.value, trunfo.naipe) {
          cartaGanhador := Some(jogada);
          indexGanhador := i;
        }
      }
    }

    /** `player.usarCarta()` for the player at position `i`: that hand loses the card at `pick`, nothing else changes. */
    method UsarCartaDe(i: nat, pick: nat) returns (jogada: Carta)
      requires Distinct(players) && i < |players| && pick < |players[i].mao|
      modifies players[i]
      ensures jogada == old(players[i].mao[pick])
      ensures Hands(players) == old(Hands(players))[i := RemoveAt(old(players[i].mao), pick)]
      ensures Scores(players) == old(Scores(players))
      ensures players == old(players) && baralho.baralho == old(baralho.baralho)
    {
      var usada := players[i].UsarCarta(pick);
      assert players == old(players) && baralho.baralho == old(baralho.baralho);
      jogada := usada.value;
      forall k | 0 <= k < |players| && k != i
        ensures players[k].mao == old(players[k].mao) && players[k].pontos == old(players[k].pontos)
      {
        assert players[k] != players[i];
      }
    }

    /**
      * The order for the next trick, built as the source builds it: the players at positions
      * `indexGanhador`, `indexGanhador + 1`, ... taken modulo the number of players. It is the
      * rotation of the current order that starts with the winner.
      */
    method NovaOrdem(indexGanhador: nat) returns (novaOrdemPlayers: seq<Player>)
      requires indexGanhador < |players|
      ensures novaOrdemPlayers == Rotated(players, indexGanhador)
    {
      var n := |players|;
      novaOrdemPlayers := [];
      for i := indexGanhador to n + indexGanhador
        invariant |novaOrdemPlayers| == i - indexGanhador
        invariant forall j :: 0 <= j < |novaOrdemPlayers| ==> novaOrdemPlayers[j] == players[(indexGanhador + j) % n]
      {
        var pegarPos := i % n;
        novaOrdemPlayers := novaOrdemPlayers + [players[pegarPos]];
      }
      forall j | 0 <= j < n
        ensures novaOrdemPlayers[j] == Rotated(players, indexGanhador)[j]
      {
        RotatedAt(players, indexGanhador, j);
      }
    }

    /**
      * The whole match as written: three cards to each player, then the loop of tricks and deals,
      * then three last tricks, then the result. The loop's guard compares the method
      * `cartasRestantes` itself, not its result, with 0; that comparison is always false, so the loop
      * body never runs and only the three last tricks are played.
      */
    method Jogar(trickPicks: seq<seq<nat>>) returns (resultado: Resultado)
      requires Valid()
      requires baralho.CartasRestantes() > 3 * |players|
      requires forall h :: h in Hands(players) ==> h == []
      requires FinalPicks(trickPicks, |players|)
      modifies this, baralho, seats
      ensures Valid()
      ensures baralho.baralho == old(baralho.baralho)[3 * |players|..]
      ensures forall h :: h in Hands(players) ==> h == []
      ensures TeamPoints(time1) + TeamPoints(time2)
           == old(TeamPoints(time1) + TeamPoints(time2)) + SumValues(old(baralho.baralho)[..3 * |players|])
      ensures resultado == Finalizar()
    {
      SeatingFacts();
      TeamsShareAllPoints();
      ghost var n, deck, hands, scores := |players|, baralho.baralho, Hands(players), Scores(players);
      HandsValueEmpty(hands);
      Iniciar();
      DealtThriceConserves(hands, deck);
      DealtThriceGrows(hands, deck);
      UltimasRodadas(trickPicks, baralho.PegarTrunfo().value);
      HandsValueEmpty(Hands(players));
      SumValuesSplit(deck, 3 * n);
      TeamsShareAllPoints();
      resultado := Finalizar();
    }

    /**
      * The match as the loop was evidently meant to run: its guard tests the number of cards left, so
      * tricks and deals alternate until the deck is empty, and the three last tricks empty the hands.
      * The trump is the bottom card of the full deck, read once before dealing: while the deck holds
      * cards that is the card `pegarTrunfo` returns, and in the three last tricks the deck is empty.
      */
    method JogarIntended(loopPicks: seq<seq<nat>>, finalPicks: seq<seq<nat>>) returns (resultado: Resultado)
      requires Valid() && (|players| == 2 || |players| == 4)
      requires |baralho.baralho| == DeckSize && SumValues(baralho.baralho) == 120
      requires forall h :: h in Hands(players) ==> h == []
      requires SumInts(Scores(players)) == 0
      requires |loopPicks| == if |players| == 2 then 17 else 7
      requires forall t :: 0 <= t < |loopPicks| ==> TrickPicks(loopPicks[t], |players|, 3)
      requires FinalPicks(finalPicks, |players|)
      modifies this, baralho, seats
      ensures Valid() && baralho.baralho == []
      ensures forall h :: h in Hands(players) ==> h == []
      ensures TeamPoints(time1) + TeamPoints(time2) == 120
      ensures resultado == Finalizar()
    {
      SeatingFacts();
      ghost var n, deck, hands := |players|, baralho.baralho, Hands(players);
      HandsValueEmpty(hands);
      var trunfo := baralho.PegarTrunfo().value;
      Iniciar();
      DealtThriceConserves(hands, deck);
      DealtThriceGrows(hands, deck);
      var rodadas := 0;
      while baralho.CartasRestantes() > 0
        invariant Valid() && |players| == n
        invariant (n == 2 ==> 2 * rodadas + |baralho.baralho| == 34) && (n == 4 ==> 4 * rodadas + |baralho.baralho| == 28)
        invariant |baralho.baralho| > 0 ==> baralho.baralho[|baralho.baralho| - 1] == trunfo
        invariant forall h :: h in Hands(players) ==> |h| == 3
        invariant SumValues(baralho.baralho) + HandsValue(Hands(players)) + SumInts(Scores(players)) == 120
        decreases |baralho.baralho|
      {
        RodadaEDarCartas(loopPicks[rodadas], trunfo);
        rodadas := rodadas + 1;
      }
      UltimasRodadas(finalPicks, trunfo);
      HandsValueEmpty(Hands(players));
      TeamsShareAllPoints();
      resultado := Finalizar();
    }

    /** One pass of the loop: a trick, then one card from the top of the deck to every player. */
    method RodadaEDarCartas(picks: seq<nat>, trunfo: Carta)
      requires Valid() && baralho.CartasRestantes() >= |players|
      requires forall h :: h in Hands(players) ==> |h| == 3
      requires TrickPicks(picks, |players|, 3)
      modifies this, baralho, seats
      ensures Valid() && |players| == old(|players|)
      ensures baralho.baralho == old(baralho.baralho)[|players|..]
      ensures forall h :: h in Hands(players) ==> |h| == 3
      ensures SumValues(baralho.baralho) + HandsValue(Hands(players)) + SumInts(Scores(players))
           == old(SumValues(baralho.baralho) + HandsValue(Hands(players)) + SumInts(Scores(players)))
    {
      SeatingFacts();
      PicksFitSizes(Hands(players), picks, 3);
      ghost var before := Hands(players);
      var jogadas, indexGanhador := Rodada(picks, trunfo);
      RodadaShrinks(before, picks, indexGanhador, 2);
      SeatingFacts();
      ghost var dealtFrom, handsBefore := baralho.baralho, Hands(players);
      DarCartas();
      DealConserves(handsBefore, dealtFrom);
      DealtGrows(handsBefore, dealtFrom, 2);
    }

    /**
      * The three last tricks, played from hands of three cards until the hands are empty, with
      * `trunfo` as the trump card. The deck is not touched, so while it holds cards its bottom card,
      * the trump `rodada` reads, stays the same.
      */
    method UltimasRodadas(trickPicks: seq<seq<nat>>, trunfo: Carta)
      requires Valid()
      requires forall h :: h in Hands(players) ==> |h| == 3
      requires FinalPicks(trickPicks, |players|)
      modifies this, seats
      ensures Valid() && baralho.baralho == old(baralho.baralho)
      ensures forall h :: h in Hands(players) ==> h == []
      ensures HandsValue(Hands(players)) + SumInts(Scores(players)) == old(HandsValue(Hands(players)) + SumInts(Scores(players)))
    {
      SeatingFacts();
      ghost var n := |players|;
      for t := 0 to 3
        invariant Valid() && |players| == n && baralho.baralho == old(baralho.baralho)
        invariant forall h :: h in Hands(players) ==> |h| == 3 - t
        invariant HandsValue(Hands(players)) + SumInts(Scores(players)) == old(HandsValue(Hands(players)) + SumInts(Scores(players)))
      {
        SeatingFacts();
        PicksFitSizes(Hands(players), trickPicks[t], 3 - t);
        ghost var before := Hands(players);
        var jogadas, indexGanhador := Rodada(trickPicks[t], trunfo);
        RodadaShrinks(before, trickPicks[t], indexGanhador, 2 - t);
      }
    }

    /** The result: the team totals compared, with the winning team's names. */
    function Finalizar(): (r: Resultado)
      reads this, time1, time2
      ensures r.pontosTime1 == TeamPoints(time1) && r.pontosTime2 == TeamPoints(time2)
      ensures r.Empate? <==> TeamPoints(time1) == TeamPoints(time2)
      ensures r.Vitoria? ==> r.ganhadores == Names(if TeamPoints(time1) > TeamPoints(time2) then time1 else time2)
    {
      Decidir(TeamPoints(time1), TeamPoints(time2), Names(time1), Names(time2))
    }
  }

  /**
    * A match of two with a deck left in the order `novoBaralho` builds it (every draw of the shuffle
    * takes the top card). As written, `jogar` plays only the six cards first dealt, the 2s and 3s,
    * worth nothing: the match ends in a draw at 0 x 0, with all 120 points left in the deck.
    */
  method PartidaSemPontos(trickPicks: seq<seq<nat>>) returns (resultado: Resultado)
    requires FinalPicks(trickPicks, 2)
    ensures resultado.pontosTime1 + resultado.pontosTime2 == 0
  {
    var partida := PartidaSemEmbaralhar();
    FirstSixWorthNothing();
    resultado := partida.Jogar(trickPicks);
  }

  /** `new Bisca("Filipe", "Maja")` with the shuffle drawing the top card every time. */
  method PartidaSemEmbaralhar() returns (partida: Bisca)
    ensures fresh(partida) && fresh(partida.baralho) && fresh(partida.seats)
    ensures partida.Valid() && |partida.players| == 2
    ensures partida.baralho.baralho == FullDeck()
    ensures forall h :: h in Hands(partida.players) ==> h == []
    ensures TeamPoints(partida.time1) + TeamPoints(partida.time2) == 0
  {
    TopPicksKeepOrder();
    TwoNames("Filipe", "Maja");
    partida := new Bisca("Filipe", "Maja", "", "", TopPicks());
    assert Hands(partida.players) == seq(2, i => []);
    SumIntsZero(Scores(partida.players));
    partida.TeamsShareAllPoints();
  }

  /** The picks of a shuffle that draws the top card every time. */
  function TopPicks(): (picks: seq<nat>)
    ensures |picks| == DeckSize
  {
    seq(DeckSize, k => 0)
  }

  /** Drawing the top card every time is a valid shuffle, and it leaves a new deck as it was built. */
  lemma TopPicksKeepOrder()
    ensures ValidPicks(TopPicks(), DeckSize)
    ensures Shuffled(FullDeck(), TopPicks()) == FullDeck()
  {
    ShuffledFromTop(FullDeck(), TopPicks());
  }

  /** Two names and no others seat two players. */
  lemma TwoNames(p1: string, p2: string)
    requires p1 != "" && p2 != ""
    ensures Validar(p1, p2, "", "") == Success([p1, p2])
  {
    PresentUnfold([""]);
    assert Present([""]) == [];
    PresentUnfold(["", ""]);
    assert ["", ""][1..] == [""];
    assert Present(["", ""]) == [];
    PresentUnfold([p2, "", ""]);
    assert [p2, "", ""][1..] == ["", ""];
    assert Present([p2, "", ""]) == [p2];
    PresentUnfold([p1, p2, "", ""]);
    assert [p1, p2, "", ""][1..] == [p2, "", ""];
    assert Present([p1, p2, "", ""]) == [p1, p2];
  }

  /** The first six cards of a new deck are the 2s and the 3s, worth no points. */
  lemma FirstSixWorthNothing()
    ensures SumValues(FullDeck()[..6]) == 0
  {
    var six := FullDeck()[..6];
    forall i | 0 <= i < 6
      ensures ValuesOf(six)[i] == 0
    {
      assert six[i] == CardAt(i);
    }
    SumIntsZero(ValuesOf(six));
  }

  /** Picks that fit hands of `m` cards each fit the hands. */
  lemma PicksFitSizes(hands: seq<seq<Carta>>, picks: seq<nat>, m: nat)
    requires forall h :: h in hands ==> |h| == m
    requires TrickPicks(picks, |hands|, m)
    ensures PicksFit(hands, picks)
  {
    forall i | 0 <= i < |hands|
      ensures picks[i] < |hands[i]|
    {
      assert hands[i] in hands;
    }
  }

  /** Re-seating moves hands and scores with their players, so the points they hold are unchanged. */
  lemma ReseatKeepsPoints(ps: seq<Player>, k: nat)
    requires k < |ps|
    ensures Hands(Rotated(ps, k)) == Rotated(Hands(ps), k)
    ensures Scores(Rotated(ps, k)) == Rotated(Scores(ps), k)
    ensures HandsValue(Hands(Rotated(ps, k))) == HandsValue(Hands(ps))
    ensures SumInts(Scores(Rotated(ps, k))) == SumInts(Scores(ps))
  {
    assert Hands(Rotated(ps, k)) == Rotated(Hands(ps), k);
    assert Scores(Rotated(ps, k)) == Rotated(Scores(ps), k);
    HandsValueRotated(Hands(ps), k);
    RotatedSum(Scores(ps), k);
  }

  /** `names.map((p) => new Player(p))`: a new player for each name, in order. */
  method NewPlayers(names: seq<string>) returns (ps: seq<Player>)
    ensures |ps| == |names| && Distinct(ps)
    ensures forall j :: 0 <= j < |ps| ==> fresh(ps[j]) && ps[j].nome == names[j] && ps[j].mao == [] && ps[j].pontos == 0
  {
    ps := [];
    for i := 0 to |names|
      invariant |ps| == i && Distinct(ps)
      invariant forall j :: 0 <= j < i ==> fresh(ps[j]) && ps[j].nome == names[j] && ps[j].mao == [] && ps[j].pontos == 0
    {
      var p := new Player(names[i]);
      ps := ps + [p];
    }
  }
}
