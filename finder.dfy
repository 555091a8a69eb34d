/** The Retro Game Finder page: its collections, the card list the filter
    walks, the two mode flags, the search field and the detail modal, with
    the handlers that change them. */
module Finder {
  import opened Wrappers
  import opened Text
  import opened Games
  import Triggers
  import Placeholder

  /** What the card container holds. */
  datatype View =
    | CardList(first: nat)  // the cards from index `first` of the card list on
    | NoGamesMessage        // "Nenhum jogo encontrado!"
    | ErrorScreen           // "ACESSO APENAS PARA ADMINISTRADORES" and its progress bar
    | AdminScreen           // "MODO ADMINISTRADOR ATIVADO" and its progress bar

  /** The progress bar running, if any, named by what its completion does. */
  datatype Progress = NoProgress | RestoreAfterError | RestoreAfterAdmin

  /** How a run of `filterGames` ended: a trigger fired, the visibility pass
      completed with its `visibleCards` count, or the pass threw at a card index. */
  datatype Outcome = Triggered | Completed(visibleCards: nat) | Threw(index: nat)

  /** `searchInput.value.toLowerCase().trim()`. */
  function Query(value: string): (q: string)
    ensures q == [] || (!IsSpace(q[0]) && !IsSpace(q[|q| - 1]))
  {
    Trim(Lower(value))
  }

  /** The query has no upper-case letter, so triggers fire whatever the case typed. */
  lemma QueryIsLowerCase(value: string)
    ensures forall i :: 0 <= i < |Query(value)| ==> !IsUpper(Query(value)[i])
  {
    var lower := Lower(value);
    var q := Query(value);
    TrimIsSlice(lower);
    var a :| SpacedSliceAt(lower, q, a);
    forall i | 0 <= i < |q|
      ensures !IsUpper(q[i])
    {
      assert q[i] == lower[a + i];
    }
  }

  /** Whatever letter case a lower-case word `w` is typed in, and whatever
      white space surrounds it, the query is `w` itself. */
  lemma QueryAnyCase(pre: string, v: string, post: string, w: string)
    requires forall k :: 0 <= k < |pre| ==> IsSpace(pre[k])
    requires forall k :: 0 <= k < |post| ==> IsSpace(post[k])
    requires SameUpToCase(v, w) && forall i :: 0 <= i < |w| ==> !IsUpper(w[i])
    requires w != [] && !IsSpace(w[0]) && !IsSpace(w[|w| - 1])
    ensures Query(pre + v + post) == w
  {
    var typed := pre + v + post;
    forall k | 0 <= k < |typed|
      ensures Lower(typed)[k] == (pre + w + post)[k]
    {
      if k < |pre| {
        assert !IsUpper(typed[k]);
      } else if k < |pre| + |v| {
        var i := k - |pre|;
        if v[i] != w[i] {
          assert IsUpper(v[i]);
        }
      } else {
        assert !IsUpper(typed[k]);
      }
    }
    assert Lower(typed) == pre + (w + post);
    TrimStartSpaces(pre, w + post);
    TrimEndSpaces(w, post);
  }

  /** "alura code" fires in any letter case and with any surrounding white space. */
  lemma HintPhraseAnyCase(pre: string, v: string, post: string)
    requires forall k :: 0 <= k < |pre| ==> IsSpace(pre[k])
    requires forall k :: 0 <= k < |post| ==> IsSpace(post[k])
    requires SameUpToCase(v, Triggers.HintPhrase)
    ensures Query(pre + v + post) == Triggers.HintPhrase
  {
    QueryAnyCase(pre, v, post, Triggers.HintPhrase);
  }

  /** The admin password fires in any letter case and with any surrounding white space. */
  lemma AdminPasswordAnyCase(pre: string, v: string, post: string)
    requires forall k :: 0 <= k < |pre| ==> IsSpace(pre[k])
    requires forall k :: 0 <= k < |post| ==> IsSpace(post[k])
    requires SameUpToCase(v, Triggers.AdminPassword)
    ensures Query(pre + v + post) == Triggers.AdminPassword
  {
    QueryAnyCase(pre, v, post, Triggers.AdminPassword);
  }

  /** The final password fires in any letter case and with any surrounding white space. */
  lemma DominationPasswordAnyCase(pre: string, v: string, post: string)
    requires forall k :: 0 <= k < |pre| ==> IsSpace(pre[k])
    requires forall k :: 0 <= k < |post| ==> IsSpace(post[k])
    requires SameUpToCase(v, Triggers.DominationPassword)
    ensures Query(pre + v + post) == Triggers.DominationPassword
  {
    QueryAnyCase(pre, v, post, Triggers.DominationPassword);
  }

  /** An empty field gives an empty query. */
  lemma EmptyQuery()
    ensures Query("") == ""
  {
    assert Lower("") == "";
  }

  /** The page as a run of `filterGames` finds it. */
  datatype Before = Before(flags: Triggers.Flags, cards: seq<Card>, games: seq<Game>,
                           secrets: seq<Secret>, view: View, progress: Progress, hintShown: bool,
                           searchDisabled: bool, secretsRequested: bool)

  /** The cards as the visibility pass for the mode in `b` leaves them. */
  function Refiltered(b: Before, query: string): seq<Card> {
    if b.flags.domination then SecretVisibility(b.cards, b.secrets, query)
    else GameVisibility(b.cards, b.games, query)
  }

  lemma LowerTypedPassword()
    ensures Lower(" SenhaForte12 ") == " senhaforte12 "
  {
  }

  lemma TrimTypedPassword()
    ensures Trim(" senhaforte12 ") == "senhaforte12"
  {
    assert TrimStart(" senhaforte12 ") == "senhaforte12 ";
  }

  /** Letter case and surrounding spaces do not matter: " SenhaForte12 " is the admin password. */
  lemma PasswordAnyCase()
    ensures Query(" SenhaForte12 ") == Triggers.AdminPassword
  {
    LowerTypedPassword();
    TrimTypedPassword();
  }

  const ErrorBanner: string := "ERRO!!!!!!!!"
  const WelcomeBanner: string := "BEM-VINDO, ADMIN!"

  class RetroGameFinder {
    var allGames: seq<Game>
    var allSecrets: seq<Secret>
    /** `gameCardElements`. */
    var cards: seq<Card>
    var isAdminModeActive: bool
    var isDominationMode: bool
    var searchValue: string
    var searchDisabled: bool
    /** Whether the hint is in the secret-message container. */
    var hintShown: bool
    var view: View
    var progress: Progress
    /** Whether the secret plans have been requested. */
    var secretsRequested: bool
    /** The game last written into the modal, whether it is shown, and the body's scroll lock. */
    var modalGame: Option<Game>
    var modalOpen: bool
    var scrollLocked: bool
    const placeholder: Placeholder.Animation

    /** The page's own invariant; the placeholder animation keeps its own. */
    ghost predicate Valid()
      reads this
    {
      (modalOpen <==> scrollLocked) && (modalOpen ==> modalGame.Some?)
      && (isDominationMode ==> isAdminModeActive)
    }

    function Flags(): Triggers.Flags
      reads this`isAdminModeActive, this`isDominationMode
    {
      Triggers.Flags(isAdminModeActive, isDominationMode)
    }

    /** The part of the page a run of `filterGames` reads or keeps. */
    function Snap(): Before
      reads this`isAdminModeActive, this`isDominationMode, this`cards, this`allGames,
            this`allSecrets, this`view, this`progress, this`hintShown, this`searchDisabled,
            this`secretsRequested
    {
      Before(Flags(), cards, allGames, allSecrets, view, progress, hintShown,
             searchDisabled, secretsRequested)
    }

    /** The page as `DOMContentLoaded` leaves it: nothing loaded yet, the
        games requested, one step of the placeholder animation taken. */
    constructor ()
      ensures Valid() && placeholder.Valid() && fresh(placeholder)
      ensures allGames == [] && allSecrets == [] && cards == [] && view == CardList(0)
      ensures Flags() == Triggers.Initial
      ensures searchValue == "" && !searchDisabled && !hintShown
      ensures progress == NoProgress && !secretsRequested
      ensures modalGame == None && !modalOpen && !scrollLocked
      ensures placeholder.Current() == Placeholder.Step(Placeholder.Start)
    {
      allGames, allSecrets, cards := [], [], [];
      isAdminModeActive, isDominationMode := false, false;
      searchValue, searchDisabled, hintShown := "", false, false;
      view, progress, secretsRequested := CardList(0), NoProgress, false;
      modalGame, modalOpen, scrollLocked := None, false, false;
      placeholder := new Placeholder.Animation();
      new;
      var _, _ := placeholder.Tick();
    }

    /** `createAndDisplayCards`: an empty list shows the "no games" message and
        adds no card; otherwise one card per game is appended, in order, to the
        cards already in the list, which is not cleared. */
    method CreateAndDisplayCards(games: seq<Game>)
      modifies this`cards, this`view
      ensures games == [] ==> view == NoGamesMessage && cards == old(cards)
      ensures games != [] ==> view == CardList(|old(cards)|) && cards == old(cards) + GameCards(games)
    {
      if |games| == 0 {
        view := NoGamesMessage;
        return;
      }
      view := CardList(|cards|);
      var i := 0;
      while i < |games|
        invariant 0 <= i <= |games|
        invariant view == CardList(|old(cards)|)
        invariant cards == old(cards) + GameCards(games[..i])
      {
        cards := cards + [GameCard(games[i])];
        i := i + 1;
        assert GameCards(games[..i]) == GameCards(games[..i - 1]) + [GameCard(games[i - 1])];
      }
      assert games[..i] == games;
    }

    /** `displaySecretCards`: the card list is cleared first, then holds one card per plan, in order. */
    method DisplaySecretCards(secrets: seq<Secret>)
      modifies this`cards, this`view
      ensures view == CardList(0) && cards == SecretCards(secrets)
    {
      view := CardList(0);
      cards := [];
      var i := 0;
      while i < |secrets|
        invariant 0 <= i <= |secrets|
        invariant view == CardList(0)
        invariant cards == SecretCards(secrets[..i])
      {
        cards := cards + [SecretCard(secrets[i])];
        i := i + 1;
        assert SecretCards(secrets[..i]) == SecretCards(secrets[..i - 1]) + [SecretCard(secrets[i - 1])];
      }
      assert secrets[..i] == secrets;
    }

    /** A successful `fetchGames`: the games replace the collection, then are rendered. */
    method GamesLoaded(games: seq<Game>)
      modifies this`allGames, this`cards, this`view
      ensures allGames == games
      ensures games == [] ==> view == NoGamesMessage && cards == old(cards)
      ensures games != [] ==> view == CardList(|old(cards)|) && cards == old(cards) + GameCards(games)
    {
      allGames := games;
      CreateAndDisplayCards(allGames);
    }

    /** A successful `fetchAndDisplaySecrets`: the plans replace their collection, then are rendered. */
    method SecretsLoaded(secrets: seq<Secret>)
      modifies this`allSecrets, this`cards, this`view
      ensures allSecrets == secrets
      ensures view == CardList(0) && cards == SecretCards(secrets)
    {
      allSecrets := secrets;
      DisplaySecretCards(allSecrets);
    }

    /** `openModal`: the game whose id `data-id` parses to is written into the
        modal, which opens and locks scrolling; with no such game nothing happens. */
    method OpenModal(gameId: Option<string>)
      requires Valid()
      modifies this`modalGame, this`modalOpen, this`scrollLocked
      ensures Valid()
      ensures GameFor(gameId, allGames).None? ==>
                modalGame == old(modalGame) && modalOpen == old(modalOpen) && scrollLocked == old(scrollLocked)
      ensures GameFor(gameId, allGames).Some? ==>
                modalGame == GameFor(gameId, allGames) && modalOpen && scrollLocked
    {
      var game := GameFor(gameId, allGames);
      if game.None? {
        return;
      }
      modalGame := game;
      modalOpen := true;
      scrollLocked := true;
    }

    /** `closeModal`. */
    method CloseModal()
      requires Valid()
      modifies this`modalOpen, this`scrollLocked
      ensures Valid() && !modalOpen && !scrollLocked
    {
      modalOpen := false;
      scrollLocked := false;
    }

    /** A click on the card at `index` of the card list, which must be in the
        container: the modal opens for its game, except in domination mode. */
    method ClickCard(index: nat)
      requires Valid()
      requires view.CardList? && view.first <= index < |cards|
      modifies this`modalGame, this`modalOpen, this`scrollLocked
      ensures Valid()
      ensures old(isDominationMode) || GameFor(cards[index].dataId, allGames).None? ==>
                modalGame == old(modalGame) && modalOpen == old(modalOpen) && scrollLocked == old(scrollLocked)
      ensures !isDominationMode && GameFor(cards[index].dataId, allGames).Some? ==>
                modalGame == GameFor(cards[index].dataId, allGames) && modalOpen && scrollLocked
    {
      if !isDominationMode {
        OpenModal(cards[index].dataId);
      }
    }

    /** The normal-mode pass of `filterGames`: every card is shown exactly when
        its game is found and matches, and the shown cards are counted. */
    method FilterGameCards(query: string) returns (visibleCards: nat)
      modifies this`cards
      ensures cards == GameVisibility(old(cards), allGames, query)
      ensures visibleCards == CountVisible(cards)
    {
      ghost var before := cards;
      visibleCards := 0;
      var i := 0;
      while i < |cards|
        invariant 0 <= i <= |cards| == |before|
        invariant forall k :: 0 <= k < i ==> cards[k] == before[k].(visible := GameShown(before[k], allGames, query))
        invariant forall k :: i <= k < |cards| ==> cards[k] == before[k]
        invariant visibleCards == CountVisible(cards[..i])
      {
        ghost var prefix := cards[..i];
        var game := GameFor(cards[i].dataId, allGames);
        if game.None? {
          cards := cards[i := cards[i].(visible := false)];
        } else {
          var isMatch := GameMatches(game.value, query);
          if isMatch {
            cards := cards[i := cards[i].(visible := true)];
            visibleCards := visibleCards + 1;
          } else {
            cards := cards[i := cards[i].(visible := false)];
          }
        }
        assert cards[..i + 1] == prefix + [cards[i]];
        i := i + 1;
      }
      assert cards[..i] == cards;
    }

    /** The domination-mode pass: card `i` is shown exactly when plan `i`
        matches; the pass throws at the first card that has no plan. */
    method FilterSecretCards(query: string) returns (outcome: Outcome)
      modifies this`cards
      ensures cards == SecretVisibility(old(cards), allSecrets, query)
      ensures outcome == if |cards| <= |allSecrets| then Completed(CountVisible(cards))
                         else Threw(|allSecrets|)
    {
      ghost var before := cards;
      var visibleCards := 0;
      var i := 0;
      while i < |cards|
        invariant 0 <= i <= |cards| == |before|
        invariant i <= |allSecrets|
        invariant forall k :: 0 <= k < i ==> cards[k] == SecretVisibility(before, allSecrets, query)[k]
        invariant forall k :: i <= k < |cards| ==> cards[k] == before[k]
        invariant visibleCards == CountVisible(cards[..i])
      {
        if i >= |allSecrets| {
          assert cards == SecretVisibility(before, allSecrets, query);
          return Threw(i);
        }
        ghost var prefix := cards[..i];
        var secret := allSecrets[i];
        var isMatch := SecretMatches(secret, query);
        cards := cards[i := cards[i].(visible := isMatch)];
        if isMatch {
          visibleCards := visibleCards + 1;
        }
        assert cards[..i + 1] == prefix + [cards[i]];
        i := i + 1;
      }
      assert cards[..i] == cards;
      outcome := Completed(visibleCards);
    }

    /** The visibility pass of `filterGames` for the current mode. */
    method FilterCards(query: string) returns (outcome: Outcome)
      modifies this`cards
      ensures cards == Refiltered(old(Snap()), query)
      ensures outcome == if isDominationMode && |cards| > |allSecrets| then Threw(|allSecrets|)
                         else Completed(CountVisible(cards))
    {
      if isDominationMode {
        outcome := FilterSecretCards(query);
      } else {
        var visibleCards := FilterGameCards(query);
        outcome := Completed(visibleCards);
      }
    }

    /** "alura code" with admin active: the hint appears, the field is emptied
        and `filterGames` runs again on it, which fires no trigger. */
    method RevealHint() returns (outcome: Outcome)
      modifies this`hintShown, this`searchValue, this`cards
      ensures hintShown && searchValue == "" && cards == Refiltered(old(Snap()), "")
      ensures outcome == if isDominationMode && |cards| > |allSecrets| then Threw(|allSecrets|)
                         else Completed(CountVisible(cards))
    {
      hintShown := true;
      searchValue := "";
      EmptyQuery();
      outcome := FilterCards(Query(searchValue));
    }

    /** "alura code" without admin: the field is locked on the error banner
        and the error screen's progress bar starts. */
    method DenyAccess()
      modifies this`searchValue, this`searchDisabled, this`view, this`progress
      ensures searchValue == ErrorBanner && searchDisabled
      ensures view == ErrorScreen && progress == RestoreAfterError
    {
      searchValue := ErrorBanner;
      searchDisabled := true;
      view := ErrorScreen;
      progress := RestoreAfterError;
    }

    /** The admin password: the field is locked on the welcome banner, the hint
        cleared, and the admin screen's progress bar starts. */
    method GrantAdmin()
      modifies this`searchValue, this`searchDisabled, this`hintShown, this`view, this`progress
      ensures searchValue == WelcomeBanner && searchDisabled && !hintShown
      ensures view == AdminScreen && progress == RestoreAfterAdmin
    {
      searchValue := WelcomeBanner;
      searchDisabled := true;
      hintShown := false;
      view := AdminScreen;
      progress := RestoreAfterAdmin;
    }

    /** The final password with admin active: the hint and the field are
        cleared, domination mode starts and the plans are requested. */
    method EnterDomination()
      modifies this`hintShown, this`searchValue, this`isDominationMode, this`secretsRequested
      ensures !hintShown && searchValue == "" && isDominationMode && secretsRequested
    {
      hintShown := false;
      searchValue := "";
      isDominationMode := true;
      secretsRequested := true;
    }

    /** What one run of `filterGames` on the trimmed, lower-cased `query`
        does to the page `b`: the triggers are tested first and, if none
        fired, the visibility pass runs. Admin mode is granted only when the
        progress bar completes, so no branch sets it here. */
    predicate Handled(b: Before, query: string, outcome: Outcome)
      reads this
      ensures Handled(b, query, outcome) ==>
                (outcome == Triggered <==>
                   Triggers.IsTrigger(b.flags, query) && !(query == Triggers.HintPhrase && b.flags.adminActive))
      ensures Handled(b, query, outcome) ==>
                (b.flags.adminActive ==> isAdminModeActive) && (b.flags.domination ==> isDominationMode)
    {
      var t := Triggers.Dispatch(b.flags, query);
      && Flags() == (if t.action == Triggers.EnterDomination then t.flags else b.flags)
      && allGames == b.games && allSecrets == b.secrets
      && (t.action !in {Triggers.DenyAccess, Triggers.GrantAdmin} ==> searchDisabled == b.searchDisabled)
      && (t.action != Triggers.EnterDomination ==> secretsRequested == b.secretsRequested)
      && (t.action == Triggers.Search ==>
            cards == Refiltered(b, query)
            && view == b.view && progress == b.progress && hintShown == b.hintShown)
      && (t.action == Triggers.RevealHint ==>
            hintShown && searchValue == "" && cards == Refiltered(b, "")
            && view == b.view && progress == b.progress)
      && (t.action in {Triggers.Search, Triggers.RevealHint} ==>
            outcome == if isDominationMode && |cards| > |allSecrets| then Threw(|allSecrets|)
                       else Completed(CountVisible(cards)))
      && (t.action == Triggers.DenyAccess ==>
            outcome == Triggered && view == ErrorScreen && progress == RestoreAfterError
            && searchDisabled && searchValue == ErrorBanner && cards == b.cards
            && hintShown == b.hintShown)
      && (t.action == Triggers.GrantAdmin ==>
            outcome == Triggered && view == AdminScreen && progress == RestoreAfterAdmin
            && searchDisabled && searchValue == WelcomeBanner && cards == b.cards && !hintShown)
      && (t.action == Triggers.EnterDomination ==>
            outcome == Triggered && secretsRequested && searchValue == "" && !hintShown
            && cards == b.cards && view == b.view && progress == b.progress)
    }

    /** `filterGames` on the trimmed, lower-cased `query`. */
    method HandleQuery(query: string) returns (outcome: Outcome)
      requires Valid()
      modifies this`searchValue, this`searchDisabled, this`hintShown, this`view, this`progress,
               this`isDominationMode, this`secretsRequested, this`cards
      ensures Valid() && Handled(old(Snap()), query, outcome)
      ensures Triggers.Dispatch(old(Flags()), query).action == Triggers.Search ==> searchValue == old(searchValue)
    {
      var t := Triggers.Dispatch(Flags(), query);
      match t.action
      case RevealHint =>
        outcome := RevealHint();
      case DenyAccess =>
        DenyAccess();
        outcome := Triggered;
      case GrantAdmin =>
        GrantAdmin();
        outcome := Triggered;
      case EnterDomination =>
        EnterDomination();
        outcome := Triggered;
      case Search =>
        outcome := FilterCards(query);
    }

    /** An `input` event: the field now holds `value`, and `filterGames` runs
        on it lower-cased and trimmed. A disabled field fires no event. */
    method FilterGames(value: string) returns (outcome: Outcome)
      requires Valid() && !searchDisabled
      modifies this`searchValue, this`searchDisabled, this`hintShown, this`view, this`progress,
               this`isDominationMode, this`secretsRequested, this`cards
      ensures Valid() && Handled(old(Snap()), Query(value), outcome)
      ensures Triggers.Dispatch(old(Flags()), Query(value)).action == Triggers.Search ==> searchValue == value
    {
      searchValue := value;
      outcome := HandleQuery(Query(value));
    }

    /** Two keystrokes in a row that fire no trigger: the field stays enabled,
        so the second one runs, and the cards end as the second query alone
        leaves them. */
    method SearchTwice(first: string, second: string) returns (outcome: Outcome)
      requires Valid() && !searchDisabled && !isDominationMode
      requires Triggers.Dispatch(Flags(), Query(first)).action == Triggers.Search
      requires Triggers.Dispatch(Flags(), Query(second)).action == Triggers.Search
      modifies this`searchValue, this`searchDisabled, this`hintShown, this`view, this`progress,
               this`isDominationMode, this`secretsRequested, this`cards
      ensures Valid() && !searchDisabled && searchValue == second && Flags() == old(Flags())
      ensures cards == GameVisibility(old(cards), allGames, Query(second))
      ensures outcome == Completed(CountVisible(cards))
    {
      var _ := FilterGames(first);
      outcome := FilterGames(second);
      GameVisibilityLatest(old(cards), allGames, Query(first), Query(second));
    }

    /** Typing " SenhaForte12 " and letting the progress bar complete leaves
        admin mode on, with the field enabled and empty again. */
    method UnlockAdmin() returns (outcome: Outcome)
      requires Valid() && placeholder.Valid() && !searchDisabled
      modifies this, placeholder
      ensures Valid() && placeholder.Valid()
      ensures outcome == Triggered && isAdminModeActive && isDominationMode == old(isDominationMode)
      ensures !searchDisabled && searchValue == "" && progress == NoProgress
      ensures allGames == old(allGames) && allSecrets == old(allSecrets)
      ensures allGames != [] ==> cards == old(cards) + GameCards(allGames)
    {
      PasswordAnyCase();
      Triggers.AdminPasswordGrants(Flags());
      outcome := FilterGames(" SenhaForte12 ");
      ProgressFinished();
    }

    /** In domination mode a reset appends the game cards after the plan
        cards, so the next search reads past the end of the plans and throws
        at the first game card. */
    method SearchAfterDominationReset() returns (outcome: Outcome)
      requires Valid() && placeholder.Valid() && !searchDisabled
      requires isDominationMode && allGames != [] && |cards| >= |allSecrets|
      modifies this, placeholder
      ensures outcome == Threw(|allSecrets|)
    {
      var _ := UnlockAdmin();
      EmptyQuery();
      Triggers.EmptyQuerySearches(Flags());
      outcome := FilterGames("");
    }

    /** `resetSystem`: the field is enabled and emptied, the hint cleared, the
        placeholder animation resumed, and the games rendered again (appended to
        the card list). Neither mode flag is touched. */
    method ResetSystem()
      requires Valid() && placeholder.Valid()
      modifies this, placeholder
      ensures Valid() && placeholder.Valid()
      ensures Flags() == old(Flags())
      ensures allGames == old(allGames) && allSecrets == old(allSecrets)
      ensures !searchDisabled && searchValue == "" && !hintShown && progress == old(progress)
      ensures secretsRequested == old(secretsRequested)
      ensures placeholder.Current() == Placeholder.Step(old(placeholder.Current()))
      ensures allGames == [] ==> view == NoGamesMessage && cards == old(cards)
      ensures allGames != [] ==> view == CardList(|old(cards)|) && cards == old(cards) + GameCards(allGames)
      ensures modalGame == old(modalGame) && modalOpen == old(modalOpen) && scrollLocked == old(scrollLocked)
    {
      searchDisabled := false;
      searchValue := "";
      hintShown := false;
      var _, _ := placeholder.Tick();
      CreateAndDisplayCards(allGames);
    }

    /** The progress bar reaching 100%: after the error screen the page is
        reset; after the admin screen admin mode is switched on, then the page
        is reset. With no progress bar running nothing happens. */
    method ProgressFinished()
      requires Valid() && placeholder.Valid()
      modifies this, placeholder
      ensures Valid() && placeholder.Valid()
      ensures progress == NoProgress
      ensures isDominationMode == old(isDominationMode)
      ensures isAdminModeActive == (old(isAdminModeActive) || old(progress) == RestoreAfterAdmin)
      ensures allGames == old(allGames) && allSecrets == old(allSecrets)
      ensures secretsRequested == old(secretsRequested)
      ensures modalGame == old(modalGame) && modalOpen == old(modalOpen) && scrollLocked == old(scrollLocked)
      ensures old(progress) == NoProgress ==>
                cards == old(cards) && view == old(view) && searchValue == old(searchValue)
                && searchDisabled == old(searchDisabled) && hintShown == old(hintShown)
                && placeholder.Current() == old(placeholder.Current())
      ensures old(progress) != NoProgress ==>
                placeholder.Current() == Placeholder.Step(old(placeholder.Current()))
      ensures old(progress) != NoProgress ==>
                !searchDisabled && searchValue == "" && !hintShown
                && (allGames == [] ==> view == NoGamesMessage && cards == old(cards))
                && (allGames != [] ==> view == CardList(|old(cards)|) && cards == old(cards) + GameCards(allGames))
    {
      match progress
      case NoProgress =>
      case RestoreAfterError =>
        progress := NoProgress;
        ResetSystem();
      case RestoreAfterAdmin =>
        progress := NoProgress;
        isAdminModeActive := true;
        ResetSystem();
    }
  }
}
