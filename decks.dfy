/** The deck (`Baralho`): building, shuffling, drawing from the top and reading the trump card. */
module Decks {
  import opened Wrappers
  import opened Sequences
  import opened Cards

  /**
    * The positions a shuffle of `n` cards draws: at step `k` the deck still holds `n - k` cards and
    * `Math.floor(Math.random() * (n - k))` is one of their positions.
    */
  predicate ValidPicks(picks: seq<nat>, n: nat)
  {
    |picks| == n && forall k :: 0 <= k < n ==> picks[k] < n - k
  }

  /**
    * The order `embaralhar` leaves a deck in: the card at the first pick goes first, then the rest
    * is shuffled by the remaining picks.
    */
  function Shuffled(s: seq<Carta>, picks: seq<nat>): seq<Carta>
    requires ValidPicks(picks, |s|)
    decreases |s|
  {
    if s == [] then []
    else
      assert ValidPicks(picks[1..], |s| - 1);
      [s[picks[0]]] + Shuffled(RemoveAt(s, picks[0]), picks[1..])
  }

  /** A shuffle is a permutation: the same cards, each as often as before. */
  lemma {:induction false} ShuffledPermutation(s: seq<Carta>, picks: seq<nat>)
    requires ValidPicks(picks, |s|)
    ensures |Shuffled(s, picks)| == |s|
    ensures multiset(Shuffled(s, picks)) == multiset(s)
    ensures SumValues(Shuffled(s, picks)) == SumValues(s)
    decreases |s|
  {
    if s != [] {
      assert ValidPicks(picks[1..], |s| - 1);
      ShuffledPermutation(RemoveAt(s, picks[0]), picks[1..]);
      RemoveAtMultiset(s, picks[0]);
      SumValuesAppend([s[picks[0]]], Shuffled(RemoveAt(s, picks[0]), picks[1..]));
      SumValuesRemoveAt(s, picks[0]);
      SumValuesSnoc([], s[picks[0]]);
    } else {
      SumIntsZero(ValuesOf(s));
    }
  }

  /** Drawing the top card at every step leaves the cards in the order they were in. */
  lemma {:induction false} ShuffledFromTop(s: seq<Carta>, picks: seq<nat>)
    requires ValidPicks(picks, |s|)
    requires forall k :: 0 <= k < |picks| ==> picks[k] == 0
    ensures Shuffled(s, picks) == s
    decreases |s|
  {
    if s != [] {
      ShuffledTopStep(s, picks);
      ShuffledFromTop(s[1..], picks[1..]);
    }
  }

  /** One step of a shuffle that draws the top card. */
  lemma ShuffledTopStep(s: seq<Carta>, picks: seq<nat>)
    requires s != [] && ValidPicks(picks, |s|) && picks[0] == 0
    ensures ValidPicks(picks[1..], |s| - 1)
    ensures Shuffled(s, picks) == [s[0]] + Shuffled(s[1..], picks[1..])
  {
    assert RemoveAt(s, 0) == s[1..];
  }

  class Baralho {
    /** The cards still in the deck; the top is position 0, the trump lies at the bottom. */
    var baralho: seq<Carta>

    /** A new deck, built and then shuffled by `picks`. */
    constructor (picks: seq<nat>)
      requires ValidPicks(picks, DeckSize)
      ensures baralho == Shuffled(FullDeck(), picks)
      ensures multiset(baralho) == multiset(FullDeck())
      ensures SumValues(baralho) == 120
    {
      baralho := [];
      new;
      NovoBaralho();
      Embaralhar(picks);
      ShuffledPermutation(FullDeck(), picks);
      FullDeckTotal();
    }

    /** Fills the deck with one card of every face in every suit, face by face. */
    method NovoBaralho()
      modifies this
      ensures baralho == FullDeck()
    {
      ghost var d := FullDeck();
      baralho := [];
      for ordem := 0 to |Valores|
        invariant baralho == d[..4 * ordem]
      {
        for s := 0 to |Naipes|
          invariant baralho == d[..4 * ordem + s]
        {
          FullDeckLayout(ordem, s);
          PrefixStep(d, 4 * ordem + s);
          baralho := baralho + [Carta(Valores[ordem].carta, Naipes[s], Valores[ordem].valor, ordem)];
        }
      }
      assert d[..4 * |Valores|] == d;
    }

    /**
      * Moves the card at each pick, in turn, from the deck to the end of a new pile, and makes that
      * pile the deck.
      */
    method Embaralhar(picks: seq<nat>)
      requires ValidPicks(picks, |baralho|)
      modifies this
      ensures baralho == Shuffled(old(baralho), picks)
      ensures multiset(baralho) == multiset(old(baralho))
    {
      ghost var original := baralho;
      var embaralhado := [];
      var k := 0;
      while |baralho| > 0
        invariant 0 <= k <= |picks| && |baralho| == |picks| - k
        invariant ValidPicks(picks[k..], |baralho|)
        invariant embaralhado + Shuffled(baralho, picks[k..]) == Shuffled(original, picks)
        decreases |baralho|
      {
        var randPos := picks[k];
        assert picks[k..][1..] == picks[k + 1..];
        embaralhado := embaralhado + [baralho[randPos]];
        baralho := RemoveAt(baralho, randPos);
        k := k + 1;
      }
      baralho := embaralhado;
      ShuffledPermutation(original, picks);
    }

    /** The card at the bottom of the deck, or `None` (`undefined`) when the deck is empty. */
    function PegarTrunfo(): (trunfo: Option<Carta>)
      reads this
      ensures trunfo.Some? <==> |baralho| > 0
      ensures trunfo.Some? ==> trunfo.value in baralho && trunfo.value == baralho[|baralho| - 1]
    {
      if |baralho| == 0 then None else Some(baralho[|baralho| - 1])
    }

    /**
      * Takes the top card out of the deck; on an empty deck returns `None` (`undefined`) and leaves it
      * empty. Drawing never moves the bottom card while another card is above it.
      */
    method PegarCarta() returns (carta: Option<Carta>)
      modifies this
      ensures old(baralho) == [] ==> carta == None && baralho == []
      ensures old(baralho) != [] ==> carta == Some(old(baralho)[0]) && baralho == old(baralho)[1..]
      ensures CartasRestantes() == if old(baralho) == [] then 0 else old(CartasRestantes()) - 1
      ensures old(|baralho|) >= 2 ==> PegarTrunfo() == old(PegarTrunfo())
    {
      if |baralho| == 0 {
        carta := None;
      } else {
        carta := Some(baralho[0]);
        baralho := baralho[1..];
      }
    }

    /** How many cards are left to draw. */
    function CartasRestantes(): nat
      reads this
    {
      |baralho|
    }
  }
}
