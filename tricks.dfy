/** How a trick is decided: the left-to-right scan of `rodada` over the cards played. */
module Tricks {
  import opened Sequences
  import opened Cards

  /**
    * The test under which the card just played takes the trick from the best card so far: a higher
    * card of the same suit, or a card of the trump suit over a card of another suit.
    */
  predicate Beats(jogada: Carta, melhor: Carta, trunfo: Naipe)
  {
    || (melhor.naipe == jogada.naipe && melhor.ordem < jogada.ordem)
    || (melhor.naipe != jogada.naipe && jogada.naipe == trunfo)
  }

  /**
    * The position of the winning card among `jogadas` (cards in play order) when `trunfo` is the
    * trump suit: the first card is the best so far, and each later card that beats the best so far
    * takes its place.
    */
  function WinnerIndex(jogadas: seq<Carta>, trunfo: Naipe): (w: nat)
    requires |jogadas| > 0
    ensures w < |jogadas|
    decreases |jogadas|
  {
    if |jogadas| == 1 then 0
    else
      var n := |jogadas| - 1;
      var w := WinnerIndex(jogadas[..n], trunfo);
      if Beats(jogadas[n], jogadas[w], trunfo) then n else w
  }

  /** The winner is always a card of the suit led or of the trump suit. */
  lemma {:induction false} WinnerSuit(jogadas: seq<Carta>, trunfo: Naipe)
    requires |jogadas| > 0
    ensures var w := WinnerIndex(jogadas, trunfo); jogadas[w].naipe == jogadas[0].naipe || jogadas[w].naipe == trunfo
    decreases |jogadas|
  {
    if |jogadas| > 1 {
      WinnerSuit(jogadas[..|jogadas| - 1], trunfo);
    }
  }

  /** One more card played: it takes the trick exactly when it beats the best card so far. */
  lemma WinnerIndexSnoc(jogadas: seq<Carta>, c: Carta, trunfo: Naipe)
    requires |jogadas| > 0
    ensures WinnerIndex(jogadas + [c], trunfo) ==
      if Beats(c, jogadas[WinnerIndex(jogadas, trunfo)], trunfo) then |jogadas| else WinnerIndex(jogadas, trunfo)
  {
    assert (jogadas + [c])[..|jogadas|] == jogadas;
  }

  /** If any trump was played, the winner is a trump, and no trump played is stronger. */
  lemma {:induction false} WinnerIsTopTrump(jogadas: seq<Carta>, trunfo: Naipe, t: nat)
    requires t < |jogadas| && jogadas[t].naipe == trunfo
    ensures jogadas[WinnerIndex(jogadas, trunfo)].naipe == trunfo
    ensures forall j :: 0 <= j < |jogadas| && jogadas[j].naipe == trunfo ==>
      jogadas[j].ordem <= jogadas[WinnerIndex(jogadas, trunfo)].ordem
    decreases |jogadas|
  {
    var n := |jogadas| - 1;
    if n > 0 {
      var prefix := jogadas[..n];
      var w := WinnerIndex(prefix, trunfo);
      if t < n {
        WinnerIsTopTrump(prefix, trunfo, t);
      } else if exists j :: 0 <= j < n && prefix[j].naipe == trunfo {
        var j :| 0 <= j < n && prefix[j].naipe == trunfo;
        WinnerIsTopTrump(prefix, trunfo, j);
      } else {
        assert WinnerIndex(jogadas, trunfo) == n;
      }
    }
  }

  /**
    * If no trump was played, the winner follows the suit led, and no card of that suit played is
    * stronger.
    */
  lemma {:induction false} WinnerIsTopOfLeadSuit(jogadas: seq<Carta>, trunfo: Naipe)
    requires |jogadas| > 0
    requires forall j :: 0 <= j < |jogadas| ==> jogadas[j].naipe != trunfo
    ensures jogadas[WinnerIndex(jogadas, trunfo)].naipe == jogadas[0].naipe
    ensures forall j :: 0 <= j < |jogadas| && jogadas[j].naipe == jogadas[0].naipe ==>
      jogadas[j].ordem <= jogadas[WinnerIndex(jogadas, trunfo)].ordem
    decreases |jogadas|
  {
    var n := |jogadas| - 1;
    if n > 0 {
      WinnerIsTopOfLeadSuit(jogadas[..n], trunfo);
    }
  }

  /** The first card wins exactly when no later card beats it. */
  lemma {:induction false} FirstCardHolds(jogadas: seq<Carta>, trunfo: Naipe)
    requires |jogadas| > 0
    ensures WinnerIndex(jogadas, trunfo) == 0 <==>
      forall j :: 0 < j < |jogadas| ==> !Beats(jogadas[j], jogadas[0], trunfo)
    decreases |jogadas|
  {
    var n := |jogadas| - 1;
    if n > 0 {
      FirstCardHolds(jogadas[..n], trunfo);
      if WinnerIndex(jogadas, trunfo) == 0 {
        forall j | 0 < j < |jogadas|
          ensures !Beats(jogadas[j], jogadas[0], trunfo)
        {
          if j < n {
            assert WinnerIndex(jogadas[..n], trunfo) == 0;
          }
        }
      }
    }
  }

  /** The picks of one trick fit the hands: one pick per seat, each inside that seat's hand. */
  predicate PicksFit(hands: seq<seq<Carta>>, picks: seq<nat>)
  {
    |picks| == |hands| && forall i :: 0 <= i < |hands| ==> picks[i] < |hands[i]|
  }

  /** The cards of a trick, in play order: every seat plays the card at its pick. */
  function Played(hands: seq<seq<Carta>>, picks: seq<nat>): (r: seq<Carta>)
    requires PicksFit(hands, picks)
    ensures |r| == |hands| && forall i :: 0 <= i < |hands| ==> r[i] == hands[i][picks[i]]
  {
    seq(|hands|, i requires 0 <= i < |hands| => hands[i][picks[i]])
  }

  /** The hands after a trick: every seat has given up the card at its pick. */
  function AfterPlay(hands: seq<seq<Carta>>, picks: seq<nat>): (r: seq<seq<Carta>>)
    requires PicksFit(hands, picks)
    ensures |r| == |hands| && forall i :: 0 <= i < |hands| ==> r[i] == RemoveAt(hands[i], picks[i])
  {
    seq(|hands|, i requires 0 <= i < |hands| => RemoveAt(hands[i], picks[i]))
  }

  /** The hands part-way through a trick: the seats before `i` have played the card at their pick. */
  function PartlyPlayed(hands: seq<seq<Carta>>, picks: seq<nat>, i: nat): (r: seq<seq<Carta>>)
    requires PicksFit(hands, picks) && i <= |hands|
    ensures |r| == |hands|
    ensures forall j :: 0 <= j < |hands| ==> r[j] == if j < i then RemoveAt(hands[j], picks[j]) else hands[j]
    ensures i == 0 ==> r == hands
    ensures i == |hands| ==> r == AfterPlay(hands, picks)
  {
    seq(|hands|, j requires 0 <= j < |hands| => if j < i then RemoveAt(hands[j], picks[j]) else hands[j])
  }

  /** The scores after seat `w` is credited with `pontos`. */
  function Credited(scores: seq<int>, w: nat, pontos: int): (r: seq<int>)
    requires w < |scores|
    ensures |r| == |scores|
  {
    scores[w := scores[w] + pontos]
  }

  /** Crediting a seat raises the total of the scores by exactly the points credited. */
  lemma CreditedSum(scores: seq<int>, w: nat, pontos: int)
    requires w < |scores|
    ensures SumInts(Credited(scores, w, pontos)) == SumInts(scores) + pontos
  {
    SumIntsUpdate(scores, w, scores[w] + pontos);
  }

  /** A trick takes exactly one card from every hand. */
  lemma AfterPlayShrinks(hands: seq<seq<Carta>>, picks: seq<nat>, m: nat)
    requires PicksFit(hands, picks)
    requires forall h :: h in hands ==> |h| == m + 1
    ensures forall h :: h in AfterPlay(hands, picks) ==> |h| == m
  {
    forall h | h in AfterPlay(hands, picks)
      ensures |h| == m
    {
      var i :| 0 <= i < |hands| && AfterPlay(hands, picks)[i] == h;
      assert hands[i] in hands;
    }
  }

  /** The hands lose exactly the points of the cards played. */
  lemma AfterPlayValue(hands: seq<seq<Carta>>, picks: seq<nat>)
    requires PicksFit(hands, picks)
    ensures HandsValue(AfterPlay(hands, picks)) == HandsValue(hands) - SumValues(Played(hands, picks))
  {
    var jogadas := Played(hands, picks);
    var zeros := seq(|hands|, j => 0);
    forall j | 0 <= j < |hands|
      ensures HandValues(AfterPlay(hands, picks))[j] == HandValues(hands)[j] - ValuesOf(jogadas)[j] + zeros[j]
    {
      SumValuesRemoveAt(hands[j], picks[j]);
    }
    SumIntsShift(HandValues(hands), HandValues(AfterPlay(hands, picks)), ValuesOf(jogadas), zeros);
    SumIntsZero(zeros);
  }

  /**
    * Scoring moves points and never makes or loses any: the points of the cards played leave the
    * hands, and the winner's score gains exactly their sum.
    */
  lemma TrickConserves(hands: seq<seq<Carta>>, scores: seq<int>, picks: seq<nat>, w: nat)
    requires PicksFit(hands, picks) && |scores| == |hands| && w < |hands|
    ensures HandsValue(AfterPlay(hands, picks)) + SumInts(Credited(scores, w, SumValues(Played(hands, picks))))
         == HandsValue(hands) + SumInts(scores)
  {
    AfterPlayValue(hands, picks);
    CreditedSum(scores, w, SumValues(Played(hands, picks)));
  }

  /**
    * A whole trick as `rodada` runs it, from the hands and scores before to the hands and scores of
    * the order that starts with the winner: no point is made or lost.
    */
  lemma RodadaConserves(hands: seq<seq<Carta>>, scores: seq<int>, picks: seq<nat>, w: nat)
    requires PicksFit(hands, picks) && |scores| == |hands| && w < |hands|
    ensures HandsValue(Rotated(AfterPlay(hands, picks), w))
          + SumInts(Rotated(Credited(scores, w, SumValues(Played(hands, picks))), w))
         == HandsValue(hands) + SumInts(scores)
  {
    TrickConserves(hands, scores, picks, w);
    HandsValueRotated(AfterPlay(hands, picks), w);
    RotatedSum(Credited(scores, w, SumValues(Played(hands, picks))), w);
  }

  /** After a trick and the re-seating, every hand holds one card fewer. */
  lemma RodadaShrinks(hands: seq<seq<Carta>>, picks: seq<nat>, w: nat, m: nat)
    requires PicksFit(hands, picks) && w < |hands|
    requires forall h :: h in hands ==> |h| == m + 1
    ensures forall h :: h in Rotated(AfterPlay(hands, picks), w) ==> |h| == m
  {
    AfterPlayShrinks(hands, picks, m);
    RotatedPermutation(AfterPlay(hands, picks), w);
    forall h | h in Rotated(AfterPlay(hands, picks), w)
      ensures |h| == m
    {
      assert h in multiset(Rotated(AfterPlay(hands, picks), w));
    }
  }
}
