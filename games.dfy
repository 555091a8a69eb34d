/** The records the page loads, the cards it renders from them, and the
    visibility each filtering pass gives the cards. */
module Games {
  import opened Wrappers
  import opened Text

  /** One entry of `dados.json`. */
  datatype Game = Game(id: int, nome: string, desenvolvedora: string,
                       anoLancamento: int, descricao: string, plataformas: seq<string>)

  /** One entry of `segredo.json`. */
  datatype Secret = Secret(plano: string, status: string, probSucesso: string, descricao: string)

  /** A card element as the filter sees it: its `data-id` attribute (absent on
      secret cards) and whether it is displayed. */
  datatype Card = Card(dataId: Option<string>, visible: bool)

  /** The card `createAndDisplayCards` builds for a game: `data-id` holds the id as text. */
  function GameCard(g: Game): (c: Card)
    ensures c.visible && c.dataId.Some? && ParseInt(c.dataId.value) == Some(g.id)
  {
    DecimalRoundTrip(g.id);
    Card(Some(Decimal(g.id)), true)
  }

  /** The card `displaySecretCards` builds for a plan: no `data-id`. */
  function SecretCard(s: Secret): (c: Card)
    ensures c.visible && forall games :: GameFor(c.dataId, games).None?
  {
    Card(None, true)
  }

  /** `games.find(g => g.id === id)`: the first game with that id, if any. */
  function FindById(games: seq<Game>, id: int): (r: Option<Game>)
    ensures r.None? <==> forall k :: 0 <= k < |games| ==> games[k].id != id
    ensures r.Some? ==> exists k :: FirstWithId(games, id, k) && games[k] == r.value
  {
    if games == [] then None
    else if games[0].id == id then
      assert FirstWithId(games, id, 0);
      Some(games[0])
    else
      var r := FindById(games[1..], id);
      if r.Some? then
        var k :| FirstWithId(games[1..], id, k) && games[1..][k] == r.value;
        assert FirstWithId(games, id, k + 1);
        r
      else r
  }

  /** `games[k]` is the first game whose id is `id`. */
  predicate FirstWithId(games: seq<Game>, id: int, k: int) {
    0 <= k < |games| && games[k].id == id && forall j :: 0 <= j < k ==> games[j].id != id
  }

  /** When ids are unique, the lookup returns the game carrying the id. */
  lemma FindUnique(games: seq<Game>, k: nat)
    requires k < |games|
    requires forall i, j :: 0 <= i < j < |games| ==> games[i].id != games[j].id
    ensures FindById(games, games[k].id) == Some(games[k])
  {
  }

  /** The game a `data-id` stands for: `parseInt(dataId)` looked up in `games`;
      an absent attribute parses to NaN, which no id equals. */
  function GameFor(dataId: Option<string>, games: seq<Game>): (r: Option<Game>)
    ensures r.Some? ==> r.value in games
    ensures r.Some? ==> dataId.Some? && ParseInt(dataId.value) == Some(r.value.id)
    ensures dataId.None? || ParseInt(dataId.value).None? ==> r.None?
    ensures dataId.Some? && ParseInt(dataId.value).Some?
            && (exists k :: 0 <= k < |games| && games[k].id == ParseInt(dataId.value).value) ==>
              r.Some? && exists k :: FirstWithId(games, ParseInt(dataId.value).value, k) && games[k] == r.value
  {
    match dataId
    case None => None
    case Some(text) =>
      match ParseInt(text)
      case None => None
      case Some(id) => FindById(games, id)
  }

  /** The normal-mode match on a trimmed, lower-cased query: name, developer or year. */
  predicate GameMatches(g: Game, query: string)
    ensures query == [] ==> GameMatches(g, query)
  {
    Contains(Lower(g.nome), query) || Contains(Lower(g.desenvolvedora), query)
    || Contains(Decimal(g.anoLancamento), query)
  }

  /** The domination-mode match: plan or description. */
  predicate SecretMatches(s: Secret, query: string)
    ensures query == [] ==> SecretMatches(s, query)
  {
    Contains(Lower(s.plano), query) || Contains(Lower(s.descricao), query)
  }

  /** Whether a card is shown by the normal-mode pass. */
  predicate GameShown(c: Card, games: seq<Game>, query: string) {
    GameFor(c.dataId, games).Some? && GameMatches(GameFor(c.dataId, games).value, query)
  }

  /** The cards after the normal-mode pass of `filterGames`. */
  function GameVisibility(cards: seq<Card>, games: seq<Game>, query: string): (r: seq<Card>)
    ensures |r| == |cards|
    ensures forall i :: 0 <= i < |r| ==> r[i].dataId == cards[i].dataId
    ensures forall i :: 0 <= i < |r| ==>
              (r[i].visible <==> GameFor(cards[i].dataId, games).Some?
                                 && GameMatches(GameFor(cards[i].dataId, games).value, query))
  {
    seq(|cards|, i requires 0 <= i < |cards| => cards[i].(visible := GameShown(cards[i], games, query)))
  }

  /** The cards after the domination-mode pass, which reads `allSecrets[i]` for
      card `i`; the pass stops with a TypeError at the first card past the end
      of `allSecrets`, so cards from that index on keep their state. */
  function SecretVisibility(cards: seq<Card>, secrets: seq<Secret>, query: string): (r: seq<Card>)
    ensures |r| == |cards|
    ensures forall i :: 0 <= i < |r| ==> r[i].dataId == cards[i].dataId
    ensures forall i :: 0 <= i < |r| && i < |secrets| ==> (r[i].visible <==> SecretMatches(secrets[i], query))
    ensures forall i :: |secrets| <= i < |r| ==> r[i] == cards[i]
  {
    seq(|cards|, i requires 0 <= i < |cards| =>
      if i < |secrets| then cards[i].(visible := SecretMatches(secrets[i], query)) else cards[i])
  }

  /** The number of displayed cards. */
  function CountVisible(cards: seq<Card>): (n: nat)
    ensures n <= |cards|
  {
    if cards == [] then 0
    else CountVisible(cards[..|cards| - 1]) + if cards[|cards| - 1].visible then 1 else 0
  }

  /** The count is zero exactly when no card is displayed, and the number of
      cards exactly when every card is. */
  lemma {:induction false} CountVisibleExtremes(cards: seq<Card>)
    ensures CountVisible(cards) == 0 <==> forall i :: 0 <= i < |cards| ==> !cards[i].visible
    ensures CountVisible(cards) == |cards| <==> forall i :: 0 <= i < |cards| ==> cards[i].visible
  {
    if cards != [] {
      var init := cards[..|cards| - 1];
      CountVisibleExtremes(init);
      assert forall i :: 0 <= i < |init| ==> init[i] == cards[i];
    }
  }

  /** The cards `createAndDisplayCards` appends, one per game, in order. */
  function GameCards(games: seq<Game>): (r: seq<Card>)
    ensures |r| == |games|
    ensures forall i :: 0 <= i < |games| ==> r[i] == GameCard(games[i])
  {
    seq(|games|, i requires 0 <= i < |games| => GameCard(games[i]))
  }

  /** The cards `displaySecretCards` creates, one per plan, in order. */
  function SecretCards(secrets: seq<Secret>): (r: seq<Card>)
    ensures |r| == |secrets|
    ensures forall i :: 0 <= i < |secrets| ==> r[i] == SecretCard(secrets[i])
  {
    seq(|secrets|, i requires 0 <= i < |secrets| => SecretCard(secrets[i]))
  }

  /** Every game card finds its game again through its `data-id`: the first
      game with the same id (the game itself when ids are unique). */
  lemma GameCardFindsGame(games: seq<Game>, i: nat)
    requires i < |games|
    ensures GameFor(GameCard(games[i]).dataId, games) == FindById(games, games[i].id)
    ensures GameFor(GameCard(games[i]).dataId, games).Some?
    ensures GameFor(GameCard(games[i]).dataId, games).value.id == games[i].id
  {
    DecimalRoundTrip(games[i].id);
    var r := FindById(games, games[i].id);
    var k :| FirstWithId(games, games[i].id, k) && games[k] == r.value;
  }

  /** An empty query shows exactly the cards that have a game behind them. */
  lemma EmptyQueryShowsBacked(cards: seq<Card>, games: seq<Game>)
    ensures forall i :: 0 <= i < |cards| ==>
              (GameVisibility(cards, games, "")[i].visible <==> GameFor(cards[i].dataId, games).Some?)
  {
  }

  /** In domination mode an empty query shows every card that has a plan at its index. */
  lemma EmptyQueryShowsPlanned(cards: seq<Card>, secrets: seq<Secret>)
    ensures forall i :: 0 <= i < |cards| && i < |secrets| ==> SecretVisibility(cards, secrets, "")[i].visible
  {
  }

  /** Rendering the games and filtering with an empty query shows every card, in order. */
  lemma RenderThenEmptyQueryShowsAll(games: seq<Game>)
    ensures GameVisibility(GameCards(games), games, "") == GameCards(games)
  {
    var r := GameVisibility(GameCards(games), games, "");
    forall i | 0 <= i < |games|
      ensures r[i] == GameCards(games)[i]
    {
      GameCardFindsGame(games, i);
    }
  }

  /** Filtering twice with the same query gives what filtering once gave. */
  lemma GameVisibilityIdempotent(cards: seq<Card>, games: seq<Game>, query: string)
    ensures GameVisibility(GameVisibility(cards, games, query), games, query)
            == GameVisibility(cards, games, query)
  {
  }

  /** Only the last pass counts: a card's visibility depends on its `data-id`, never on what an earlier pass left. */
  lemma GameVisibilityLatest(cards: seq<Card>, games: seq<Game>, first: string, second: string)
    ensures GameVisibility(GameVisibility(cards, games, first), games, second)
            == GameVisibility(cards, games, second)
  {
  }

  lemma SecretVisibilityIdempotent(cards: seq<Card>, secrets: seq<Secret>, query: string)
    ensures SecretVisibility(SecretVisibility(cards, secrets, query), secrets, query)
            == SecretVisibility(cards, secrets, query)
  {
  }

  /** A string with a character that `s` lacks does not occur in `s`. */
  lemma MissingCharNotContained(s: string, t: string, j: nat)
    requires j < |t| && t[j] !in s
    ensures !Contains(s, t)
  {
    ContainsIffOccurs(s, t);
  }

  const ChronoTrigger := Game(1, "Chrono Trigger", "Square", 1995, "time travel RPG", ["SNES"])

  lemma ChronoTriggerName()
    ensures Lower(ChronoTrigger.nome) == "chrono trigger"
  {
  }

  lemma ChronoTriggerDeveloper()
    ensures Lower(ChronoTrigger.desenvolvedora) == "square"
  {
  }

  lemma ChronoTriggerFound()
    ensures GameMatches(ChronoTrigger, "trigger")
  {
    ChronoTriggerName();
    var name := Lower(ChronoTrigger.nome);
    assert OccursAt(name, "trigger", 7);
    ContainsIffOccurs(name, "trigger");
  }

  lemma ChronoTriggerNotSega()
    ensures !GameMatches(ChronoTrigger, "sega")
  {
    ChronoTriggerName();
    MissingCharNotContained(Lower(ChronoTrigger.nome), "sega", 0);
    ChronoTriggerDeveloper();
    MissingCharNotContained(Lower(ChronoTrigger.desenvolvedora), "sega", 2);
    LetterNotInDecimal(ChronoTrigger.anoLancamento, 's');
    MissingCharNotContained(Decimal(ChronoTrigger.anoLancamento), "sega", 0);
  }

  /** A year written out holds no letter, so a query with a letter never matches it. */
  lemma LetterNotInDecimal(n: int, c: char)
    requires !IsDigit(c) && c != '-'
    ensures c !in Decimal(n)
  {
  }

  /** A worked example: "Chrono Trigger" is found by "trigger" and not by "sega". */
  lemma ChronoTriggerExample()
    ensures CountVisible(GameVisibility(GameCards([ChronoTrigger]), [ChronoTrigger], "trigger")) == 1
    ensures CountVisible(GameVisibility(GameCards([ChronoTrigger]), [ChronoTrigger], "sega")) == 0
  {
    GameCardFindsGame([ChronoTrigger], 0);
    ChronoTriggerFound();
    ChronoTriggerNotSega();
  }
}
