/**
 * The portfolio filter (script.js:85-117).
 *
 * Each filter button carries a `data-filter` attribute and each card a
 * `data-category` attribute; either may be missing, in which case JavaScript
 * reads `undefined`. A click on a button makes that button the only active
 * one, then sends every card down the show path or the hide path. Each path
 * has an immediate effect and one deferred callback (50 ms for show, 300 ms
 * for hide); the model states the immediate effect and the state a card
 * settles in once its own callback has run.
 */
module PortfolioFilter {
  import opened Options

  /** A filter button: its `data-filter` attribute and whether it has the "active" class. */
  datatype FilterButton = FilterButton(filter: Option<string>, active: bool)

  /** A portfolio card: its `data-category` attribute and its inline styles. */
  datatype Card = Card(category: Option<string>, display: string, opacity: string, transform: string)

  /** A card is shown when the filter is "all" or equals the card's category (`undefined === undefined` holds). */
  predicate Matches(filter: Option<string>, category: Option<string>) {
    filter == Some("all") || category == filter
  }

  /** The buttons after a click on button `clicked`: only that one is active. */
  function Activate(buttons: seq<FilterButton>, clicked: nat): (r: seq<FilterButton>)
    ensures |r| == |buttons|
  {
    seq(|buttons|, i requires 0 <= i < |buttons| => buttons[i].(active := i == clicked))
  }

  /** The show path's immediate effect: the inline `display` is reset. */
  function Show(card: Card): Card {
    card.(display := "")
  }

  /** The hide path's immediate effect: the card fades out and slides down. */
  function Hide(card: Card): Card {
    card.(opacity := "0", transform := "translateY(20px)")
  }

  /** The immediate effect of a click with `filter` on one card. */
  function FilterCard(card: Card, filter: Option<string>): (r: Card)
    ensures r.category == card.category
    ensures Matches(filter, card.category) ==> r.opacity == card.opacity && r.transform == card.transform
    ensures !Matches(filter, card.category) ==> r.display == card.display
  {
    if Matches(filter, card.category) then Show(card) else Hide(card)
  }

  /** The immediate effect of a click with `filter` on every card. */
  function FilterCards(cards: seq<Card>, filter: Option<string>): (r: seq<Card>)
    ensures |r| == |cards|
  {
    seq(|cards|, i requires 0 <= i < |cards| => FilterCard(cards[i], filter))
  }

  /** The deferred callback a card's path scheduled: fade in after 50 ms, or collapse after 300 ms. */
  function Settle(card: Card, filter: Option<string>): (r: Card)
    ensures r.category == card.category
    ensures Matches(filter, card.category) ==> r.display == card.display
    ensures !Matches(filter, card.category) ==> r.opacity == card.opacity && r.transform == card.transform
  {
    if Matches(filter, card.category) then card.(opacity := "1", transform := "translateY(0)")
    else card.(display := "none")
  }

  /** After a click, exactly the clicked button is active; no button's filter changes. */
  lemma ExactlyClickedActive(buttons: seq<FilterButton>, clicked: nat)
    requires clicked < |buttons|
    ensures forall i :: 0 <= i < |buttons| ==>
      (Activate(buttons, clicked)[i].active <==> i == clicked) &&
      Activate(buttons, clicked)[i].filter == buttons[i].filter
  {
  }

  /**
   * After a click, each card takes the show path exactly when it matches the
   * filter: its display is reset and nothing else changes; otherwise it fades
   * out and its display is left for the deferred callback.
   */
  lemma ShowPathIffMatches(cards: seq<Card>, filter: Option<string>)
    ensures forall i :: 0 <= i < |cards| ==>
      (Matches(filter, cards[i].category) ==> FilterCards(cards, filter)[i] == cards[i].(display := "")) &&
      (!Matches(filter, cards[i].category) ==>
        FilterCards(cards, filter)[i] == cards[i].(opacity := "0", transform := "translateY(20px)"))
  {
  }

  /** With filter "all", every card takes the show path. */
  lemma AllShowsEveryCard(cards: seq<Card>)
    ensures forall i :: 0 <= i < |cards| ==> FilterCards(cards, Some("all"))[i] == Show(cards[i])
  {
  }

  /**
   * Once a card's own deferred callback has run, it is displayed and fully
   * opaque exactly when it matches the filter, whatever state it was in before.
   */
  lemma SettledVisibility(card: Card, filter: Option<string>)
    ensures var settled := Settle(FilterCard(card, filter), filter);
      settled.category == card.category &&
      (settled.display != "none" <==> Matches(filter, card.category)) &&
      (settled.opacity == "1" <==> Matches(filter, card.category)) &&
      (settled.display == "" <==> Matches(filter, card.category))
  {
  }

  /**
   * The click handler on button `clicked`. The listeners exist only when there
   * is at least one button and at least one card; with no cards a click does nothing.
   */
  method Click(buttons: array<FilterButton>, cards: array<Card>, clicked: nat)
    requires clicked < buttons.Length
    modifies buttons, cards
    ensures cards.Length == 0 ==> buttons[..] == old(buttons[..]) && cards[..] == old(cards[..])
    ensures cards.Length > 0 ==> buttons[..] == Activate(old(buttons[..]), clicked)
    ensures cards.Length > 0 ==> cards[..] == FilterCards(old(cards[..]), old(buttons[clicked].filter))
  {
    if cards.Length == 0 {
      return;
    }
    // every button loses "active", then the clicked one gains it
    var i := 0;
    while i < buttons.Length
      modifies buttons
      invariant 0 <= i <= buttons.Length
      invariant forall k :: 0 <= k < i ==> buttons[k] == old(buttons[k]).(active := false)
      invariant forall k :: i <= k < buttons.Length ==> buttons[k] == old(buttons[k])
    {
      buttons[i] := buttons[i].(active := false);
      i := i + 1;
    }
    buttons[clicked] := buttons[clicked].(active := true);
    assert buttons[..] == Activate(old(buttons[..]), clicked);
    var filter := buttons[clicked].filter;

    var j := 0;
    while j < cards.Length
      modifies cards
      invariant 0 <= j <= cards.Length
      invariant forall k :: 0 <= k < j ==> cards[k] == FilterCard(old(cards[k]), filter)
      invariant forall k :: j <= k < cards.Length ==> cards[k] == old(cards[k])
    {
      var card := cards[j];
      if filter == Some("all") || card.category == filter {
        cards[j] := card.(display := "");
      } else {
        cards[j] := card.(opacity := "0", transform := "translateY(20px)");
      }
      j := j + 1;
    }
  }
}
