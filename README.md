# Bisca in Dafny

A model of the Bisca engine in `index.js`. Bisca is the Portuguese trick-taking card game for two
players, or four in two teams. The engine has four parts:

- the deck (`Baralho`): 40 cards, ten faces in four suits, worth 120 points together;
- the players (`Player`): a name, a hand and a score;
- the match (`Bisca`): seats the players, deals three cards each and plays tricks. The trump is the
  bottom card of the deck. Each trick's winner collects the points of the cards played and leads
  the next trick. At the end the two teams' totals are compared.
- the cards (`Carta`): plain values.

The modules follow the source's classes:

| module | models |
|---|---|
| `Cards` | `Carta`, the face and suit tables, and the point sums (`reduce`) |
| `Decks` | `Baralho`, as a class whose `baralho` field the methods reassign |
| `Players` | `Player`, as a class with `mao` and `pontos` fields |
| `Tricks` | the winner scan, the scoring and the hands after a trick, as functions |
| `Dealing` | what `darCartas` and `iniciar` do to hands and deck, as functions |
| `Matches` | `Bisca`, as a class |
| `Sequences` | rotation, `splice`, sums and the even/odd filters |
| `Wrappers` | `Option` and `Result` |

`Math.random` is replaced by explicit positions ("picks"), each in the range the source's
`Math.floor(Math.random() * length)` can produce.

`Bisca` carries two ghost fields:

- `seats`: the original seating;
- `lead`: the original seat of the player who leads now.

Its invariant `Valid()` says three things:

- the current order is the original seating rotated to start at `lead`;
- no player sits twice;
- the teams are the players at the even and the odd original seats.

From the invariant, `TeamsShareAllPoints` proves that the two teams' totals always add up to every
player's points. The trick and deal methods prove that points are only ever moved, between the
deck, the hands and the scores, never made or lost.

Every method that changes state is proved against a specification function on values:

- `Embaralhar` against `Shuffled`;
- `DarCartas` against `Dealt`, and `Iniciar` against `DealtThrice`;
- the play loop of `rodada` against `Played`, `AfterPlay` and `WinnerIndex`;
- the re-seating loop against `Rotated`.

The lemmas in `Tricks`, `Dealing` and `Sequences` prove what the source promises about those
functions.

Where the code and its own comments disagree, the model follows the code; both differences are
reported under "Findings":

- the comment at index.js:164 and the message thrown at index.js:171 allow only 2 or 4 players, but
  the check at index.js:171 also accepts 3;
- the comment at index.js:279 says `jogar` runs the whole game, but the loop at index.js:285 never
  runs, so only the first cards dealt are played.

On an empty deck or an empty hand, `pegarCarta` (index.js:94-96), `pegarTrunfo` (index.js:86-88) and
`usarCarta` (index.js:134-137) return `undefined`; `PegarCarta`, `PegarTrunfo` and `UsarCarta`
return `None` there.

## Model

| member | source | states |
|---|---|---|
| `Cards.FullDeckLayout` | index.js:44-66 | a new deck has 40 cards. The card at `4 * ordem + s` has face `ordem` of the face table (its face, points and strength `ordem`) and suit `s` of the suit table |
| `Cards.FullDeckDistinct` | index.js:59-65 | every (face, suit) pair occurs only once in a new deck |
| `Cards.FullDeckFaceDeterminesRank` | index.js:47-63 | in a new deck, cards with the same face have the same points and the same strength, whatever their suit |
| `Cards.FullDeckTotal` | index.js:44-66 | the 40 cards of a new deck are worth 120 points together |
| `Cards.FaceTableTotal` | index.js:47-58 | the ten faces are worth 30 points together |
| `Cards.SumValuesPermutation` | index.js:243 | a sum of card points depends only on which cards there are, not on their order |
| `Cards.SumValuesRemoveAt` | index.js:136 | taking one card out of a hand lowers the hand's worth by exactly that card's points |
| `Cards.HandsValueRotated` | index.js:248-256 | passing the hands round the table does not change the points they hold |
| `Decks.ShuffledPermutation` | index.js:71-80 | a shuffle keeps the length, the multiset of cards and the total points |
| `Decks.ShuffledFromTop` | index.js:74-77 | a shuffle that always draws the top card leaves the deck as it was |
| `Decks.Baralho.constructor` | index.js:36-39 | a new deck is the built deck shuffled by the picks. It is a permutation of the 40 cards and is worth 120 points |
| `Decks.Baralho.NovoBaralho` | index.js:44-66 | the deck becomes the built deck: face by face, and within each face suit by suit |
| `Decks.Baralho.Embaralhar` | index.js:71-80 | the deck becomes its old contents shuffled by the picks, which is a permutation of them |
| `Decks.Baralho.PegarTrunfo` | index.js:86-88 | returns the bottom card, or nothing (`undefined`) exactly when the deck is empty |
| `Decks.Baralho.PegarCarta` | index.js:94-96 | removes and returns the top card and leaves the rest in order. The count of cards left drops by one, and the trump is unchanged while another card lies above it. On an empty deck it returns nothing and changes nothing |
| `Players.Player.constructor` | index.js:116-120 | a player starts with the given name, an empty hand and no points |
| `Players.Player.ReceberCarta` | index.js:126-128 | the hand gains exactly the card, at its end; the score is unchanged |
| `Players.Player.UsarCarta` | index.js:134-137 | returns the card at the picked position and removes exactly that one card. An empty hand returns nothing. The score is unchanged |
| `Players.Player.AdicionarPontos` | index.js:143-145 | `consultarPontos` then returns the old score plus the argument; the hand is unchanged |
| `Tricks.WinnerIndex` | index.js:226-241 | the reference definition of the winner scan: the position it finds is one of the positions played |
| `Tricks.WinnerIndexSnoc` | index.js:233-240 | one more card takes the trick exactly when it beats the best card so far |
| `Tricks.WinnerSuit` | index.js:233-240 | the winning card is of the suit led or of the trump suit |
| `Tricks.WinnerIsTopTrump` | index.js:233-240 | if a trump was played, a trump wins, and no trump played is stronger than the winner |
| `Tricks.WinnerIsTopOfLeadSuit` | index.js:233-240 | if no trump was played, a card of the suit led wins, and no card of that suit is stronger than the winner |
| `Tricks.FirstCardHolds` | index.js:233-240 | the first card wins exactly when no later card beats it |
| `Tricks.AfterPlayShrinks` | index.js:226-227 | a trick takes exactly one card from every hand |
| `Tricks.AfterPlayValue` | index.js:226-231 | the hands lose exactly the points of the cards played |
| `Tricks.CreditedSum` | index.js:243-245 | crediting the winner raises the total of the scores by exactly the points credited |
| `Tricks.TrickConserves` | index.js:226-245 | the points of the cards played leave the hands and go to the winner; nothing is made or lost |
| `Tricks.RodadaConserves` | index.js:226-256 | a whole trick, re-seating included, keeps the hands' points plus the scores unchanged |
| `Tricks.RodadaShrinks` | index.js:226-256 | after a trick and the re-seating, every hand holds one card fewer |
| `Dealing.DealtGrows` | index.js:189-194 | one round of dealing gives every hand exactly one more card |
| `Dealing.DealConserves` | index.js:189-194 | one round takes from the deck exactly the points it adds to the hands |
| `Dealing.DealtThriceAt` | index.js:199-203 | after three rounds, seat `i` holds its old hand plus the cards at positions `i`, `n + i` and `2n + i` of the deck |
| `Dealing.DealtThriceConserves` | index.js:199-203 | three rounds move the points of the top `3n` cards into the hands |
| `Dealing.DealtThriceGrows` | index.js:199-203 | three rounds into empty hands leave every hand with three cards |
| `Tricks.Beats` | index.js:234-236 | the reference definition of the replacement test: a stronger card of the same suit, or a trump over a card of another suit |
| `Tricks.Played` | index.js:226-231 | the reference definition of the cards of a trick: each seat's card at its pick, in play order |
| `Tricks.AfterPlay` | index.js:226-227 | the reference definition of the hands after a trick: each hand without the card at its pick |
| `Tricks.Credited` | index.js:245 | the reference definition of the scores after the credit: the winner's score raised by the trick's points |
| `Decks.Shuffled` | index.js:71-80 | the reference definition of the shuffle: the card at the first pick first, then the rest shuffled by the remaining picks |
| `Decks.Baralho.CartasRestantes` | index.js:102-104 | the number of cards left in the deck |
| `Players.Player.ConsultarPontos` | index.js:151-153 | the player's score |
| `Players.TeamPoints` | index.js:263-264 | the reference definition of a team's total: the sum of its members' scores |
| `Cards.SumValues` | index.js:243 | the reference definition of the points of a pile of cards, the sum of their `valor`; never negative |
| `Dealing.Dealt` | index.js:189-194 | the reference definition of one round of dealing: seat `i` receives the card at position `i` from the top |
| `Dealing.DealtThrice` | index.js:199-203 | the reference definition of three rounds, each from the deck the previous round left |
| `Sequences.RemoveAt` | index.js:136 | the reference definition of `splice(k, 1)`: the elements before `k`, then those after it, in order |
| `Sequences.Rotated` | index.js:248-256 | the reference definition of the re-seating: the order from the winner on, then the players before the winner |
| `Sequences.EvenSeats` | index.js:180 | the reference definition of team 1's filter: the elements at even positions |
| `Sequences.OddSeats` | index.js:183 | the reference definition of team 2's filter: the elements at odd positions |
| `Sequences.RemoveAtMultiset` | index.js:136 | `splice(k, 1)` takes away exactly one occurrence of the element at `k` |
| `Sequences.RotatedAt` | index.js:250-254 | the re-seating's `(indexGanhador + j) % n` lands on the same player as the rotation |
| `Sequences.RotatedPermutation` | index.js:248-256 | the new order is a permutation of the old one and starts with the winner |
| `Sequences.RotatedDistinct` | index.js:248-256 | re-seating never seats a player twice |
| `Sequences.RotatedTwice` | index.js:248-256 | two re-seatings in a row are one rotation of the original seating |
| `Sequences.RotatedSum` | index.js:248-256 | re-seating does not change the total of the scores |
| `Sequences.SeatsAt` | index.js:180-183 | team 1 is exactly the even seats and team 2 exactly the odd seats, in order |
| `Sequences.SeatsSum` | index.js:180-183 | the two teams together hold every seat once, so their totals add up to the total of all seats |
| `Matches.Present` | index.js:177 | the kept names are exactly the non-empty names given; when all names are given, all are kept unchanged |
| `Matches.PresentAppend` | index.js:177 | the filter keeps the order: filtering `a + b` gives the names kept from `a`, then those kept from `b` |
| `Matches.Validar` | index.js:171-177 | the check fails exactly when the first or second name is missing, or the third is given without the fourth. Otherwise the seats are `p1`, `p2`, then `p3` if given, then `p4` if given, in that order. So there are 4 players exactly when `p3` is given and 3 exactly when only `p4` is given |
| `Matches.ValidarIntended` | index.js:171 | accepts exactly two names or four, and then seats as the source does |
| `Matches.ThreeSeatsAccepted` | index.js:171-177 | the names `"A", "B", "", "D"` pass the check and seat three players; the intended check refuses them |
| `Matches.TwoNames` | index.js:170-177 | two names and no others seat exactly those two players |
| `Matches.Decidir` | index.js:262-276 | a draw exactly when the totals are equal; otherwise the team with the strictly greater total wins. Both totals are reported |
| `Matches.DrawAtSixty` | index.js:266-271 | when 120 points are shared out, the match is a draw exactly when each team has 60; otherwise the team holding more than 60 wins |
| `Matches.NewPlayers` | index.js:177 | a new, distinct player for each name, in order, with an empty hand and no points |
| `Matches.Bisca.SeatingFacts` | index.js:248-256 | under any re-seating, every current player is one of the original players and none appears twice |
| `Matches.Bisca.TeamsShareAllPoints` | index.js:263-264 | however the order has rotated, the two team totals add up to the total of all players' points |
| `Matches.Bisca.constructor` | index.js:170-184 | seats a new player for each name the check accepts, with empty hands and no points. The teams are the even and odd seats. The deck is a shuffle of the 40 cards |
| `Matches.Bisca.DarCartas` | index.js:189-194 | each player, in the current order, receives the next card from the top; the deck loses one card per player; scores and seating are unchanged |
| `Matches.Bisca.PuxarCarta` | index.js:191 | the top card leaves the deck; the players are untouched |
| `Matches.Bisca.ReceberCartaDe` | index.js:192 | only the hand of that player grows, by exactly the card given |
| `Matches.Bisca.Iniciar` | index.js:199-203 | three rounds of dealing; the deck loses three cards per player |
| `Matches.Bisca.Rodada` | index.js:212-257 | the cards played are those at the picks; the winner is the scan's winner. Each hand loses its played card and the winner gains the trick's points. The order is rotated to start with the winner. The deck is unchanged and no point is made or lost |
| `Matches.Bisca.JogarEPontuar` | index.js:226-245 | the plays and the credit of a trick, before the re-seating |
| `Matches.Bisca.JogarCartas` | index.js:226-241 | the loop plays every seat's picked card in order and keeps the best card so far and its position; the result is the reference winner |
| `Matches.Bisca.UsarCartaDe` | index.js:227 | only that player's hand changes, losing exactly the picked card |
| `Matches.Bisca.Creditar` | index.js:245 | only the winner's score changes, by exactly the trick's points |
| `Matches.Bisca.NovaOrdem` | index.js:248-255 | the loop over `indexGanhador .. n + indexGanhador - 1` builds the rotation that starts with the winner |
| `Matches.Bisca.Reordenar` | index.js:256 | hands and scores move with their players; the seating invariant still holds |
| `Matches.ReseatKeepsPoints` | index.js:248-256 | the hands and scores of the new order are those of the old order rotated, with the same totals |
| `Matches.Bisca.Finalizar` | index.js:262-276 | reports both team totals. A draw exactly when they are equal; otherwise the names of the team with the greater total |
| `Matches.Bisca.Jogar` | index.js:281-299 | `jogar` as written: three cards dealt to each player, then only three tricks, because the loop never runs. The deck loses only `3n` cards; the hands end empty; the teams gain exactly the points of those `3n` cards. The result is `finalizar`'s |
| `Matches.Bisca.UltimasRodadas` | index.js:292-296 | three tricks from hands of three cards empty the hands, leave the deck alone and keep all points |
| `Matches.Bisca.JogarIntended` | index.js:281-299 | with the loop guard testing the number of cards left, a 2- or 4-player match plays the whole deck: the deck and the hands end empty, and the teams share all 120 points |
| `Matches.Bisca.RodadaEDarCartas` | index.js:285-290 | one pass of the loop: a trick, then one card to every player. Hands are back to three cards and no point is made or lost |
| `Matches.PartidaSemPontos` | index.js:305-307 | `new Bisca("Filipe", "Maja").jogar()` with an unshuffled deck ends with no points scored |
| `Matches.PartidaSemEmbaralhar` | index.js:306 | the two-player match, before play, has the unshuffled deck, empty hands and no points |
| `Matches.TopPicksKeepOrder` | index.js:71-80 | drawing the top card at every step is a valid shuffle and leaves a new deck as it was built |
| `Matches.FirstSixWorthNothing` | index.js:47-50 | the first six cards of a new deck, the 2s and the 3s, are worth nothing |

## Left out

- Console output: every `console.log`, `printCarta`, and the ` e ` join of the winners' names. `finalizar` returns a `Resultado` instead of printing.
- `Math.random` and `Math.floor`: replaced by explicit positions in the range they can produce (`ValidPicks`, `PicksFit`, `TrickPicks`, `FinalPicks`).
- The `typeof p === "string"` filter and JavaScript truthiness: names are strings, and `""` stands for a missing or falsy name.
- The thrown string: the failed check is the `SetupError` value `WrongPlayerCount`. The `Bisca` constructor requires a name list the check accepts.
- `main()` and its top-level call: process entry only. `Matches.PartidaSemPontos` plays the same match, with the shuffle fixed.
- The trick number `rod` passed to `rodada`: it is only printed.
- Suits are a `Naipe` datatype and faces are characters, instead of strings. Only equality between them is ever used.
- `Matches.Bisca.Rodada`: the trump card is a parameter, not read from the deck inside the trick. `jogar` as written passes the deck's bottom card. `JogarIntended` passes the bottom card of the full deck, because in the last three tricks the deck is empty and `pegarTrunfo` would return `undefined`.
- `Matches.Bisca.DarCartas`: requires at least one card per player. On a shorter deck the source would put `undefined` into hands; that is not modelled.
- `Matches.Bisca.Rodada`: requires each pick to fall inside its hand. On an empty hand the source would play `undefined` and fail on `printCarta`; that is not modelled.
- `Matches.Bisca.Jogar`: requires a match as the constructor leaves it (enough cards, empty hands). It states the deck, the hands and the team totals, not each player's final score.
- `Matches.Bisca.JogarIntended`: requires 2 or 4 players, a full deck and no points yet. It states only the team totals (120 together), not which team wins.
- `Matches.PartidaSemPontos`: states that the two totals add up to 0, not that each is 0 or that the result is a draw.
- `Players.Player.ConsultarPontos` and `Decks.Baralho.CartasRestantes`: modelled as functions returning the field. Their meaning is stated through the contracts of `AdicionarPontos` and `PegarCarta`.
- Aliasing between players: `Valid()` requires distinct players, which the constructor guarantees by creating one new player per name.

## Findings

| source | as written | input that shows it | evidently intended | confidence | as-written member | corrected member |
|---|---|---|---|---|---|---|
| index.js:285 | `this.baralho.cartasRestantes > 0` compares the method itself with 0, which is always false, so the loop of tricks and deals never runs and only the first `3n` cards are played | `new Bisca("Filipe", "Maja")` with a shuffle that draws the top card every time: only the 2s and 3s are played and the match ends 0 x 0, with all 120 points left in the deck | two changes together: call the method, `this.baralho.cartasRestantes() > 0`, so that tricks and deals alternate until the deck is empty; and read the trump once, before dealing. Without the second change the last three tricks run on an empty deck, `pegarTrunfo` (index.js:87) returns `undefined`, and `trunfo.naipe` at index.js:236 fails as soon as a card of another suit than the best card is played. With both changes all 120 points are shared out | not executed | `Matches.PartidaSemPontos` | `Matches.Bisca.JogarIntended` |
| index.js:171 | `!p1 \|\| !p2 \|\| (p3 && !p4)` does not reject a fourth name given without a third, and the filter at index.js:177 then seats three players | `new Bisca("A", "B", null, "D")` seats three players, `A`, `B` and `D` | reject unless exactly two or exactly four names are given, as the thrown message says | not executed | `Matches.ThreeSeatsAccepted` | `Matches.ValidarIntended` |
