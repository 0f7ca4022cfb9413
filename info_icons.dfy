/** The info icons of the catalogue cards (src/js/utils.js, `initializeInfoIcons`). Clicking a card's icon
    toggles that card's hover state, hides the icon, and clears the hover state of every other card while
    showing their icons again; a click elsewhere on the document clears hover states as well. Whatever the
    clicks, at most one card is ever in the hover state, and a card in the hover state has its icon hidden. */
module InfoIcons {

  /** Where a document click lands: on an info icon, on card `c`, or outside every card. */
  datatype ClickTarget = OnIcon | OnCard(c: nat) | Outside

  /** The cards of a page. `hover[k]` is the card's `hover-enabled` class and `hidden[k]` its icon's
      `hidden` class; `hasIcon[k]` says whether the card has an icon and `isLink[k]` whether it is an
      `<a>` element (the index page) rather than a `<div>`. */
  class CardIcons {
    const hasIcon: seq<bool>
    const isLink: seq<bool>
    const hover: array<bool>
    const hidden: array<bool>

    ghost predicate Valid()
      reads this, hover, hidden
    {
      hover != hidden
      && hover.Length == hidden.Length == |hasIcon| == |isLink|
      && (forall k :: 0 <= k < hidden.Length && hidden[k] ==> hasIcon[k])
      && AtMostOneHover()
      && (forall k :: 0 <= k < hover.Length && hover[k] ==> hidden[k])
    }

    /** No two cards are in the hover state. */
    predicate AtMostOneHover()
      reads this, hover
    {
      forall i, j :: 0 <= i < hover.Length && 0 <= j < hover.Length && hover[i] && hover[j] ==> i == j
    }

    /** A freshly rendered page: no card hovers and every icon shows. */
    constructor(hasIcon: seq<bool>, isLink: seq<bool>)
      requires |hasIcon| == |isLink|
      ensures this.hasIcon == hasIcon && this.isLink == isLink
      ensures fresh(hover) && fresh(hidden) && hover.Length == hidden.Length == |hasIcon|
      ensures forall k :: 0 <= k < hover.Length ==> !hover[k] && !hidden[k]
      ensures Valid()
    {
      this.hasIcon := hasIcon;
      this.isLink := isLink;
      hover := new bool[|hasIcon|](_ => false);
      hidden := new bool[|hasIcon|](_ => false);
    }

    /** The icon's click handler on card `c`: toggles `c`'s hover state and hides its icon; every other
        card stops hovering and shows its icon again. */
    method IconClick(c: nat)
      requires Valid() && c < hover.Length && hasIcon[c]
      modifies hover, hidden
      ensures Valid()
      ensures hover[c] == !old(hover[c]) && hidden[c]
      ensures forall k :: 0 <= k < hover.Length && k != c ==> !hover[k] && !hidden[k]
    {
      hover[c] := !hover[c];
      hidden[c] := true;
      for k := 0 to hover.Length
        invariant hover[c] == !old(hover[c]) && hidden[c]
        invariant forall j :: 0 <= j < k && j != c ==> !hover[j] && !hidden[j]
        invariant forall j :: k <= j < hover.Length && j != c ==> hover[j] == old(hover[j]) && hidden[j] == old(hidden[j])
      {
        if k != c {
          hover[k] := false;
          if hasIcon[k] {
            hidden[k] := false;
          }
        }
      }
    }

    /** The document's click handler: a click on an icon changes nothing; a click outside every card resets
        every card; a click on a `<div>` card resets that card; a click on an `<a>` card changes nothing. */
    method DocumentClick(target: ClickTarget)
      requires Valid()
      requires target.OnCard? ==> target.c < hover.Length
      modifies hover, hidden
      ensures Valid()
      ensures target.Outside? ==> forall k :: 0 <= k < hover.Length ==> !hover[k] && !hidden[k]
      ensures target.OnCard? && !isLink[target.c] ==> !hover[target.c] && !hidden[target.c]
      ensures target.OnIcon? ==> hover[..] == old(hover[..]) && hidden[..] == old(hidden[..])
      ensures target.OnCard? ==> forall k :: 0 <= k < hover.Length && (k != target.c || isLink[k]) ==>
        hover[k] == old(hover[k]) && hidden[k] == old(hidden[k])
    {
      match target
      case OnIcon =>
      case Outside =>
        for k := 0 to hover.Length
          invariant forall j :: 0 <= j < k ==> !hover[j] && !hidden[j]
          invariant forall j :: k <= j < hover.Length ==> hover[j] == old(hover[j]) && hidden[j] == old(hidden[j])
        {
          hover[k] := false;
          if hasIcon[k] {
            hidden[k] := false;
          }
        }
      case OnCard(c) =>
        if !isLink[c] {
          hover[c] := false;
          if hasIcon[c] {
            hidden[c] := false;
          }
        }
    }
  }

  /** A click on the page: on the icon of card `c` (its handler stops the event from reaching the document),
      or one the document's handler sees. */
  datatype Click = IconOf(c: nat) | Document(target: ClickTarget)

  predicate Allowed(cards: CardIcons, click: Click)
    reads cards
  {
    match click
    case IconOf(c) => c < |cards.hasIcon| && cards.hasIcon[c]
    case Document(target) => target.OnCard? ==> target.c < |cards.hasIcon|
  }

  /** Whatever clicks happen, in whatever order, at most one card hovers and its icon is hidden. */
  method Clicks(cards: CardIcons, clicks: seq<Click>)
    requires cards.Valid()
    requires forall k :: 0 <= k < |clicks| ==> Allowed(cards, clicks[k])
    modifies cards.hover, cards.hidden
    ensures cards.Valid() && cards.AtMostOneHover()
  {
    for k := 0 to |clicks|
      invariant cards.Valid()
    {
      match clicks[k]
      case IconOf(c) => cards.IconClick(c);
      case Document(target) => cards.DocumentClick(target);
    }
  }
}
