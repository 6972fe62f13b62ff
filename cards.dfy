/** The playing cards of Bisca (`Carta`) and the fixed tables the deck is built from. */
module Cards {
  import opened Sequences

  /**
    * One card: its face (`carta`, "2" .. "A"), its suit (`naipe`), the points it is worth (`valor`)
    * and its strength (`ordem`), the position of its face in the table below. Cards never change.
    */
  datatype Carta = Carta(carta: char, naipe: Naipe, valor: nat, ordem: nat)

  /** The four suits. */
  datatype Naipe = Copas | Espadas | Ouros | Paus

  /** A row of the face table: the face and the points it is worth. */
  datatype Face = Face(carta: char, valor: nat)

  /** The ten faces from weakest to strongest, with their points. */
  const Valores: seq<Face> := [
    Face('2', 0), Face('3', 0), Face('4', 0), Face('5', 0), Face('6', 0),
    Face('Q', 2), Face('J', 3), Face('K', 4), Face('7', 10), Face('A', 11)
  ]

  /** The four suits, in the order the deck is filled. */
  const Naipes: seq<Naipe> := [Copas, Espadas, Ouros, Paus]

  /** The number of cards in a new deck: every face in every suit. */
  const DeckSize: nat := 40

  /** The card a new deck holds at position `i`: face `i / 4`, suit `i % 4`. */
  function CardAt(i: nat): Carta
    requires i < DeckSize
  {
    var ordem := i / 4;
    Carta(Valores[ordem].carta, Naipes[i % 4], Valores[ordem].valor, ordem)
  }

  /** The deck `novoBaralho` builds, before any shuffling. */
  function FullDeck(): seq<Carta>
  {
    seq(DeckSize, i requires 0 <= i < DeckSize => CardAt(i))
  }

  /** The points of each card, in order. */
  function ValuesOf(cs: seq<Carta>): (vs: seq<int>)
    ensures |vs| == |cs| && forall i :: 0 <= i < |cs| ==> vs[i] == cs[i].valor
  {
    seq(|cs|, i requires 0 <= i < |cs| => cs[i].valor)
  }

  /** The points a sequence of cards is worth together: the `reduce` over `valor`. Never negative. */
  function SumValues(cs: seq<Carta>): (r: int)
    ensures r >= 0
  {
    SumIntsNonNegative(ValuesOf(cs));
    SumInts(ValuesOf(cs))
  }

  lemma {:induction false} SumIntsNonNegative(s: seq<int>)
    requires forall j :: 0 <= j < |s| ==> s[j] >= 0
    ensures SumInts(s) >= 0
    decreases |s|
  {
    if s != [] {
      SumIntsNonNegative(s[..|s| - 1]);
    }
  }

  /** The points in each of `hands`, hand by hand. */
  function HandValues(hands: seq<seq<Carta>>): (r: seq<int>)
    ensures |r| == |hands| && forall i :: 0 <= i < |hands| ==> r[i] == SumValues(hands[i])
  {
    seq(|hands|, i requires 0 <= i < |hands| => SumValues(hands[i]))
  }

  /** The points held in `hands` together. */
  function HandsValue(hands: seq<seq<Carta>>): int
  {
    SumInts(HandValues(hands))
  }

  /** Empty hands hold no points. */
  lemma HandsValueEmpty(hands: seq<seq<Carta>>)
    requires forall h :: h in hands ==> h == []
    ensures HandsValue(hands) == 0
  {
    forall j | 0 <= j < |hands|
      ensures HandValues(hands)[j] == 0
    {
      assert hands[j] in hands;
    }
    SumIntsZero(HandValues(hands));
  }

  /** Passing the hands round the table does not change the points they hold. */
  lemma HandsValueRotated(hands: seq<seq<Carta>>, k: nat)
    requires k < |hands|
    ensures HandsValue(Rotated(hands, k)) == HandsValue(hands)
  {
    assert HandValues(Rotated(hands, k)) == Rotated(HandValues(hands), k);
    RotatedSum(HandValues(hands), k);
  }

  lemma SumValuesAppend(a: seq<Carta>, b: seq<Carta>)
    ensures SumValues(a + b) == SumValues(a) + SumValues(b)
  {
    assert ValuesOf(a + b) == ValuesOf(a) + ValuesOf(b);
    SumIntsAppend(ValuesOf(a), ValuesOf(b));
  }

  /** Cutting a pile in two splits its points between the two parts. */
  lemma SumValuesSplit(cs: seq<Carta>, k: nat)
    requires k <= |cs|
    ensures SumValues(cs) == SumValues(cs[..k]) + SumValues(cs[k..])
  {
    assert cs == cs[..k] + cs[k..];
    SumValuesAppend(cs[..k], cs[k..]);
  }

  /** Adding one card at the end adds exactly its points. */
  lemma SumValuesSnoc(cs: seq<Carta>, c: Carta)
    ensures SumValues(cs + [c]) == SumValues(cs) + c.valor
  {
    assert ValuesOf(cs + [c]) == ValuesOf(cs) + [c.valor];
    assert (ValuesOf(cs) + [c.valor])[..|cs|] == ValuesOf(cs);
  }

  /** Taking one card out of a hand takes exactly its points out of the hand's worth. */
  lemma SumValuesRemoveAt(cs: seq<Carta>, k: nat)
    requires k < |cs|
    ensures SumValues(RemoveAt(cs, k)) == SumValues(cs) - cs[k].valor
  {
    assert cs == cs[..k] + [cs[k]] + cs[k + 1..];
    SumValuesAppend(cs[..k] + [cs[k]], cs[k + 1..]);
    SumValuesSnoc(cs[..k], cs[k]);
    SumValuesAppend(cs[..k], cs[k + 1..]);
  }

  /** Cards in another order are worth the same: the sum depends only on the multiset of cards. */
  lemma {:induction false} SumValuesPermutation(a: seq<Carta>, b: seq<Carta>)
    requires multiset(a) == multiset(b)
    ensures SumValues(a) == SumValues(b)
    decreases |a|
  {
    if a == [] {
      assert b == [];
    } else {
      var n := |a| - 1;
      assert a[n] in multiset(b);
      var k :| 0 <= k < |b| && b[k] == a[n];
      RemoveAtMultiset(b, k);
      assert a == a[..n] + [a[n]];
      assert multiset(a[..n]) == multiset(a) - multiset{a[n]};
      assert multiset(RemoveAt(b, k)) == multiset(b) - multiset{b[k]};
      SumValuesPermutation(a[..n], RemoveAt(b, k));
      SumValuesRemoveAt(b, k);
      SumValuesSnoc(a[..n], a[n]);
    }
  }

  /**
    * The layout of a new deck: 40 cards, and the card at `4 * ordem + s` has the face, the points
    * and the strength of row `ordem` of the face table and the suit `Naipes[s]`.
    */
  lemma FullDeckLayout(ordem: nat, s: nat)
    requires ordem < |Valores| && s < |Naipes|
    ensures |FullDeck()| == |Valores| * |Naipes| == DeckSize
    ensures FullDeck()[4 * ordem + s] == Carta(Valores[ordem].carta, Naipes[s], Valores[ordem].valor, ordem)
  {
    var i := 4 * ordem + s;
    assert i / 4 == ordem && i % 4 == s;
  }

  /** No two faces of the table are written alike. */
  lemma FacesDistinct()
    ensures forall a, b :: 0 <= a < b < |Valores| ==> Valores[a].carta != Valores[b].carta
  {
    forall a, b | 0 <= a < b < |Valores|
      ensures Valores[a].carta != Valores[b].carta
    {
    }
  }

  /** Every (face, suit) combination occurs once in a new deck. */
  lemma FullDeckDistinct()
    ensures forall i, j :: 0 <= i < j < DeckSize ==>
      (FullDeck()[i].carta, FullDeck()[i].naipe) != (FullDeck()[j].carta, FullDeck()[j].naipe)
  {
    FacesDistinct();
    forall i, j | 0 <= i < j < DeckSize
      ensures (FullDeck()[i].carta, FullDeck()[i].naipe) != (FullDeck()[j].carta, FullDeck()[j].naipe)
    {
      assert i == 4 * (i / 4) + i % 4 && j == 4 * (j / 4) + j % 4;
      if i / 4 == j / 4 {
        assert i % 4 != j % 4;
      }
    }
  }

  /** The face of a card of a new deck fixes its points and its strength, whatever its suit. */
  lemma FullDeckFaceDeterminesRank()
    ensures forall i, j :: 0 <= i < DeckSize && 0 <= j < DeckSize && FullDeck()[i].carta == FullDeck()[j].carta ==>
      FullDeck()[i].valor == FullDeck()[j].valor && FullDeck()[i].ordem == FullDeck()[j].ordem
  {
    FacesDistinct();
  }

  /** The 40 cards of a new deck are worth 120 points together. */
  lemma FullDeckTotal()
    ensures SumValues(FullDeck()) == 120
  {
    var d := FullDeck();
    for ordem := 0 to |Valores|
      invariant SumValues(d[..4 * ordem]) == 4 * SumInts(FaceValues()[..ordem])
    {
      FullDeckRowTotal(ordem);
    }
    assert d[..4 * |Valores|] == d;
    assert FaceValues()[..|Valores|] == FaceValues();
    FaceTableTotal();
  }

  /** Adding the four cards of face `ordem` keeps the running total at four times the faces' points so far. */
  lemma FullDeckRowTotal(ordem: nat)
    requires ordem < |Valores|
    requires SumValues(FullDeck()[..4 * ordem]) == 4 * SumInts(FaceValues()[..ordem])
    ensures SumValues(FullDeck()[..4 * (ordem + 1)]) == 4 * SumInts(FaceValues()[..ordem + 1])
  {
    FullDeckRow(ordem);
    SumIntsPrefix(FaceValues(), ordem);
  }

  /** The four cards of face `ordem` add four times that face's points to the deck's running total. */
  lemma FullDeckRow(ordem: nat)
    requires ordem < |Valores|
    ensures SumValues(FullDeck()[..4 * ordem + 4]) == SumValues(FullDeck()[..4 * ordem]) + 4 * Valores[ordem].valor
  {
    var d, b, v := FullDeck(), 4 * ordem, Valores[ordem].valor;
    FullDeckLayout(ordem, 0);
    FullDeckLayout(ordem, 1);
    FullDeckLayout(ordem, 2);
    FullDeckLayout(ordem, 3);
    assert d[b].valor == v && d[b + 1].valor == v && d[b + 2].valor == v && d[b + 3].valor == v;
    RunningTotal(d, b, v);
  }

  /** Four cards worth `v` each, from position `b` on, add `4 * v` to the running total. */
  lemma RunningTotal(d: seq<Carta>, b: nat, v: int)
    requires b + 4 <= |d|
    requires d[b].valor == v && d[b + 1].valor == v && d[b + 2].valor == v && d[b + 3].valor == v
    ensures SumValues(d[..b + 4]) == SumValues(d[..b]) + 4 * v
  {
    SumValuesPrefix(d, b);
    SumValuesPrefix(d, b + 1);
    SumValuesPrefix(d, b + 2);
    SumValuesPrefix(d, b + 3);
  }

  /** The points of the ten faces, weakest first. */
  function FaceValues(): seq<int>
  {
    seq(|Valores|, i requires 0 <= i < |Valores| => Valores[i].valor)
  }

  lemma SumValuesPrefix(d: seq<Carta>, i: nat)
    requires i < |d|
    ensures SumValues(d[..i + 1]) == SumValues(d[..i]) + d[i].valor
  {
    assert d[..i + 1] == d[..i] + [d[i]];
    SumValuesSnoc(d[..i], d[i]);
  }

  lemma SumIntsSnoc(s: seq<int>, x: int)
    ensures SumInts(s + [x]) == SumInts(s) + x
  {
    assert (s + [x])[..|s|] == s;
  }

  lemma SumIntsPrefix(s: seq<int>, i: nat)
    requires i < |s|
    ensures SumInts(s[..i + 1]) == SumInts(s[..i]) + s[i]
  {
    assert s[..i + 1] == s[..i] + [s[i]];
    SumIntsSnoc(s[..i], s[i]);
  }

  /** The ten faces are worth 30 points together. */
  lemma FaceTableTotal()
    ensures SumInts(FaceValues()) == 30
  {
    var zeros := [0, 0, 0, 0, 0];
    SumIntsZero(zeros);
    assert FaceValues() == zeros + [2] + [3] + [4] + [10] + [11];
    SumIntsSnoc(zeros, 2);
    SumIntsSnoc(zeros + [2], 3);
    SumIntsSnoc(zeros + [2] + [3], 4);
    SumIntsSnoc(zeros + [2] + [3] + [4], 10);
    SumIntsSnoc(zeros + [2] + [3] + [4] + [10], 11);
  }
}
