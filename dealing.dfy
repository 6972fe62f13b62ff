/** Dealing on values: what `darCartas` and `iniciar` do to the hands and the deck. */
module Dealing {
  import opened Sequences
  import opened Cards

  /** One round of `darCartas`: seat `i` receives the card at position `i` from the top of `deck`. */
  function Dealt(hands: seq<seq<Carta>>, deck: seq<Carta>): (r: seq<seq<Carta>>)
    requires |hands| <= |deck|
    ensures |r| == |hands| && forall i :: 0 <= i < |hands| ==> r[i] == hands[i] + [deck[i]]
  {
    seq(|hands|, i requires 0 <= i < |hands| => hands[i] + [deck[i]])
  }

  /** A round part-way through: the seats before `i` have received their card. */
  function PartlyDealt(hands: seq<seq<Carta>>, deck: seq<Carta>, i: nat): (r: seq<seq<Carta>>)
    requires |hands| <= |deck| && i <= |hands|
    ensures |r| == |hands|
    ensures forall j :: 0 <= j < |hands| ==> r[j] == if j < i then hands[j] + [deck[j]] else hands[j]
    ensures i == 0 ==> r == hands
    ensures i == |hands| ==> r == Dealt(hands, deck)
  {
    seq(|hands|, j requires 0 <= j < |hands| => if j < i then hands[j] + [deck[j]] else hands[j])
  }

  /** `iniciar`: three rounds, each from the deck the previous round left. */
  function DealtThrice(hands: seq<seq<Carta>>, deck: seq<Carta>): (r: seq<seq<Carta>>)
    requires 3 * |hands| <= |deck|
    ensures |r| == |hands|
  {
    var n := |hands|;
    Dealt(Dealt(Dealt(hands, deck), deck[n..]), deck[n + n..])
  }

  /** After three rounds seat `i` holds its old hand and the cards at `i`, `n + i` and `2n + i`. */
  lemma DealtThriceAt(hands: seq<seq<Carta>>, deck: seq<Carta>, i: nat)
    requires 3 * |hands| <= |deck| && i < |hands|
    ensures DealtThrice(hands, deck)[i] == hands[i] + [deck[i], deck[|hands| + i], deck[2 * |hands| + i]]
  {
    var n := |hands|;
    assert deck[n..][i] == deck[n + i];
    assert deck[n + n..][i] == deck[2 * n + i];
  }

  /** One round gives every hand exactly one more card. */
  lemma DealtGrows(hands: seq<seq<Carta>>, deck: seq<Carta>, m: nat)
    requires |hands| <= |deck|
    requires forall h :: h in hands ==> |h| == m
    ensures forall h :: h in Dealt(hands, deck) ==> |h| == m + 1
  {
    forall h | h in Dealt(hands, deck)
      ensures |h| == m + 1
    {
      var i :| 0 <= i < |hands| && Dealt(hands, deck)[i] == h;
      assert hands[i] in hands;
    }
  }

  /**
    * Dealing moves points and never makes or loses any: one round takes from the deck exactly the
    * points it adds to the hands.
    */
  lemma DealConserves(hands: seq<seq<Carta>>, deck: seq<Carta>)
    requires |hands| <= |deck|
    ensures HandsValue(Dealt(hands, deck)) + SumValues(deck[|hands|..]) == HandsValue(hands) + SumValues(deck)
  {
    var n := |hands|;
    var zeros := seq(n, j => 0);
    forall j | 0 <= j < n
      ensures HandValues(Dealt(hands, deck))[j] == HandValues(hands)[j] - zeros[j] + ValuesOf(deck[..n])[j]
    {
      SumValuesSnoc(hands[j], deck[j]);
    }
    SumIntsShift(HandValues(hands), HandValues(Dealt(hands, deck)), zeros, ValuesOf(deck[..n]));
    SumIntsZero(zeros);
    assert deck == deck[..n] + deck[n..];
    SumValuesAppend(deck[..n], deck[n..]);
  }

  /** Three rounds move the points of the first `3n` cards of the deck into the hands. */
  lemma DealtThriceConserves(hands: seq<seq<Carta>>, deck: seq<Carta>)
    requires 3 * |hands| <= |deck|
    ensures HandsValue(DealtThrice(hands, deck)) + SumValues(deck[3 * |hands|..]) == HandsValue(hands) + SumValues(deck)
  {
    var n := |hands|;
    var h1 := Dealt(hands, deck);
    var h2 := Dealt(h1, deck[n..]);
    DealConserves(hands, deck);
    DealConserves(h1, deck[n..]);
    assert deck[n..][n..] == deck[n + n..];
    DealConserves(h2, deck[n + n..]);
    assert deck[n + n..][n..] == deck[3 * n..];
  }

  /** Three rounds into empty hands leave every hand with three cards. */
  lemma DealtThriceGrows(hands: seq<seq<Carta>>, deck: seq<Carta>)
    requires 3 * |hands| <= |deck|
    requires forall h :: h in hands ==> h == []
    ensures forall h :: h in DealtThrice(hands, deck) ==> |h| == 3
  {
    var n := |hands|;
    DealtGrows(hands, deck, 0);
    DealtGrows(Dealt(hands, deck), deck[n..], 1);
    DealtGrows(Dealt(Dealt(hands, deck), deck[n..]), deck[n + n..], 2);
  }
}
