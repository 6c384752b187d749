/** The running game as the event loop holds it: thirteen pile objects whose
    cards change in place, and the drag state (whether a run is held, the run,
    the pile it came from). Each handler is proved to change the piles exactly
    as the value-level session says, so every invariant proved there holds of
    the objects too. */
module MainLoop {
  import opened Cards
  import opened Piles
  import opened Rules
  import opened Session

  /** The cards of each pile, in order. */
  function CardsOf(ps: seq<Pile>): (r: seq<seq<Card>>)
    reads ps
    ensures |r| == |ps| && forall i :: 0 <= i < |ps| ==> r[i] == ps[i].cards
  {
    seq(|ps|, i reads ps requires 0 <= i < |ps| => ps[i].cards)
  }

  /** The tableau search of one column, topmost card first: the first face-up
      card under the pointer. */
  method TopmostTouched(cards: seq<Card>, p: Pointer, c: nat) returns (r: Option<nat>)
    ensures r == TopmostInColumn(cards, p, c, |cards|)
  {
    var k := |cards|;
    while k > 0
      invariant 0 <= k <= |cards|
      invariant TopmostInColumn(cards, p, c, |cards|) == TopmostInColumn(cards, p, c, k)
    {
      if cards[k - 1].faceUp && CardHit(p, c, k - 1) {
        return Some(k - 1);
      }
      k := k - 1;
    }
    return None;
  }

  /** Seven tableau columns, four foundations, a stock and a waste: thirteen
      different piles, each of its kind. */
  ghost predicate LaidOut(tableau: seq<Pile>, foundation: seq<Pile>, stock: Pile, waste: Pile)
  {
    && |tableau| == 7 && |foundation| == 4
    && (forall i, j :: 0 <= i < j < 7 ==> tableau[i] != tableau[j])
    && (forall i, j :: 0 <= i < j < 4 ==> foundation[i] != foundation[j])
    && (forall i, j :: 0 <= i < 7 && 0 <= j < 4 ==> tableau[i] != foundation[j])
    && stock != waste
    && stock !in tableau && stock !in foundation && waste !in tableau && waste !in foundation
    && (forall i :: 0 <= i < 7 ==> tableau[i].kind == Tableau)
    && (forall i :: 0 <= i < 4 ==> foundation[i].kind == Foundation)
    && stock.kind == Stock && waste.kind == Waste
  }

  /** n new empty piles of one kind. */
  method NewPiles(kind: Kind, n: nat) returns (ps: seq<Pile>)
    ensures |ps| == n
    ensures forall k :: 0 <= k < n ==> fresh(ps[k]) && ps[k].kind == kind && ps[k].cards == []
    ensures forall k, l :: 0 <= k < l < n ==> ps[k] != ps[l]
  {
    ps := [];
    for i := 0 to n
      invariant |ps| == i
      invariant forall k :: 0 <= k < i ==> fresh(ps[k]) && ps[k].kind == kind && ps[k].cards == []
      invariant forall k, l :: 0 <= k < l < i ==> ps[k] != ps[l]
    {
      var pile := new Pile(kind);
      ps := ps + [pile];
    }
  }

  /** Pop count cards off the end of d onto an empty pile: the pile gets
      them last card first. */
  method PopOnto(pile: Pile, d: seq<Card>, count: nat) returns (rest: seq<Card>)
    requires count <= |d| && pile.cards == []
    modifies pile
    ensures rest == d[..|d| - count]
    ensures pile.cards == Reverse(d[|d| - count..])
  {
    rest := d;
    for row := 0 to count
      invariant rest == d[..|d| - row]
      invariant pile.cards == Reverse(d[|d| - row..])
    {
      var card := rest[|rest| - 1];
      assert Reverse(d[|d| - (row + 1)..]) == Reverse(d[|d| - row..]) + [card];
      rest := rest[..|rest| - 1];
      pile.AddCards([card]);
    }
  }

  /** The thirteen piles of a new game, all empty. */
  method NewTable() returns (tableau: seq<Pile>, foundation: seq<Pile>, stock: Pile, waste: Pile)
    ensures LaidOut(tableau, foundation, stock, waste)
    ensures forall c :: 0 <= c < 7 ==> fresh(tableau[c]) && tableau[c].cards == []
    ensures forall i :: 0 <= i < 4 ==> fresh(foundation[i]) && foundation[i].cards == []
    ensures fresh(stock) && fresh(waste) && stock.cards == [] && waste.cards == []
  {
    tableau := NewPiles(Tableau, 7);
    foundation := NewPiles(Foundation, 4);
    stock := new Pile(Stock);
    waste := new Pile(Waste);
  }

  /** The new game's piles: seven tableau columns, four foundations, the
      stock and the waste; then the deal from the end of the shuffled deck:
      column c gets c + 1 cards, one at a time, and its top is turned up; the
      rest of the deck goes onto the stock. */
  method DealNewGame(deck: seq<Card>) returns (tableau: seq<Pile>, foundation: seq<Pile>, stock: Pile, waste: Pile)
    requires |deck| == 52
    ensures LaidOut(tableau, foundation, stock, waste)
    ensures forall c :: 0 <= c < 7 ==> fresh(tableau[c])
    ensures forall i :: 0 <= i < 4 ==> fresh(foundation[i])
    ensures fresh(stock) && fresh(waste)
    ensures forall c :: 0 <= c < 7 ==> tableau[c].cards == DealColumn(deck, c)
    ensures forall i :: 0 <= i < 4 ==> foundation[i].cards == []
    ensures stock.cards == deck[..24] && waste.cards == []
  {
    tableau, foundation, stock, waste := NewTable();
    var d := DealTableau(tableau, deck);
    stock.AddCards(d);
  }

  /** A click on the stock: draw DRAW_COUNT cards, or fewer if the stock
      runs out; on an empty stock, recycle a non-empty waste. */
  method StockClicked(stock: Pile, waste: Pile)
    requires stock != waste
    modifies stock, waste
    ensures (stock.cards, waste.cards) == StockClick(old(stock.cards), old(waste.cards))
  {
    if stock.cards != [] {
      var n := if DRAW_COUNT < |stock.cards| then DRAW_COUNT else |stock.cards|;
      Draw(stock, waste, n);
    } else if waste.cards != [] {
      RecycleWasteToStock(stock, waste);
    }
  }

  /** The deal onto seven empty columns, from the end of the deck: column c
      gets c + 1 cards, one at a time, and its top is turned up. What is left
      of the deck is returned. */
  method DealTableau(tableau: seq<Pile>, deck: seq<Card>) returns (d: seq<Card>)
    requires |deck| == 52 && |tableau| == 7
    requires forall i, j :: 0 <= i < j < 7 ==> tableau[i] != tableau[j]
    requires forall c :: 0 <= c < 7 ==> tableau[c].cards == []
    modifies tableau
    ensures forall c :: 0 <= c < 7 ==> tableau[c].cards == DealColumn(deck, c)
    ensures d == deck[..24]
  {
    d := deck;
    UndealtAll(deck);
    for col := 0 to 7
      invariant d == Undealt(deck, col)
      invariant forall c :: 0 <= c < col ==> tableau[c].cards == DealColumn(deck, c)
      invariant forall c :: col <= c < 7 ==> tableau[c].cards == []
    {
      UndealtSplit(deck, col);
      d := PopOnto(tableau[col], d, col + 1);
      tableau[col].TurnTopUp();
    }
  }

  /** n cards, each popped off the stock, turned up and pushed onto the waste. */
  method Draw(stock: Pile, waste: Pile, n: nat)
    requires stock != waste && n <= |stock.cards|
    modifies stock, waste
    ensures (stock.cards, waste.cards) == DrawTimes(old(stock.cards), old(waste.cards), n)
  {
    for i := 0 to n
      invariant (stock.cards, waste.cards) == DrawTimes(old(stock.cards), old(waste.cards), i)
    {
      var card := stock.cards[|stock.cards| - 1];
      stock.cards := stock.cards[..|stock.cards| - 1];
      card := card.(faceUp := true);
      waste.AddCards([card]);
    }
  }

  /** The win test: the foundations' sizes added up, compared with 52. */
  method FoundationsFull(foundation: seq<Pile>) returns (won: bool)
    ensures won == HasWon(CardsOf(foundation))
  {
    ghost var fs := CardsOf(foundation);
    var total := 0;
    for i := 0 to |foundation|
      invariant total == Total(fs[..i])
    {
      assert fs[..i + 1][..i] == fs[..i];
      total := total + |foundation[i].cards|;
    }
    assert fs[..|foundation|] == fs;
    return total == 52;
  }

  /** Pick up the run from position k of a pile with no repeated card: the
      card there is looked up and the pile is cut at it. */
  method TakeRun(pile: Pile, k: nat) returns (moving: seq<Card>)
    requires k < |pile.cards| && DistinctIds(pile.cards)
    modifies pile
    ensures pile.cards == old(pile.cards)[..k] && moving == old(pile.cards)[k..]
  {
    SplitAtPosition(pile.cards, k);
    var card := pile.cards[k];
    moving := pile.RemoveFrom(card);
  }

  class Game {
    const tableau: seq<Pile>
    const foundation: seq<Pile>
    const stock: Pile
    const waste: Pile
    var dragging: bool
    var dragCards: seq<Card>
    var dragFrom: Pile?
    /** Which of the piles dragFrom is. */
    ghost var origin: Origin

    /** The pile a drag origin names. */
    function PileOf(o: Origin): Pile
      requires |tableau| == 7 && |foundation| == 4 && OriginOk(o)
    {
      match o
      case FromWaste => waste
      case FromTableau(c) => tableau[c]
      case FromFoundation(i) => foundation[i]
    }

    /** Thirteen different piles of the right kinds, and a drag state that
        names its origin pile. */
    ghost predicate Layout()
      reads this
    {
      && LaidOut(tableau, foundation, stock, waste)
      && (dragging ==> OriginOk(origin) && dragFrom == PileOf(origin))
      && (!dragging ==> dragCards == [] && dragFrom == null)
    }

    /** The game as a session value. */
    ghost function View(): Table
      reads this, tableau, foundation, stock, waste
    {
      Table(CardsOf(tableau), CardsOf(foundation), stock.cards, waste.cards,
            if dragging then Holding(dragCards, origin) else Idle)
    }

    /** A reachable game. */
    ghost predicate Valid()
      reads this, tableau, foundation, stock, waste
    {
      Layout() && Invariant(View())
    }

    /** A new game: the dealt piles, and nothing held. */
    constructor (deck: seq<Card>)
      requires |deck| == 52 && OneOfEach(Ids(deck)) && AllFaceDown(deck)
      ensures Valid() && View() == Deal(deck)
      ensures fresh(stock) && fresh(waste)
      ensures forall c :: 0 <= c < 7 ==> fresh(tableau[c])
      ensures forall i :: 0 <= i < 4 ==> fresh(foundation[i])
    {
      var ts, fs, s, w := DealNewGame(deck);
      tableau, foundation, stock, waste := ts, fs, s, w;
      dragging, dragCards, dragFrom := false, [], null;
      origin := FromWaste;
      new;
      assert CardsOf(tableau) == Deal(deck).tableau;
      assert CardsOf(foundation) == Deal(deck).foundation;
      assert View() == Deal(deck);
      DealStartsValid(deck);
    }

    /** The pointer-down handler's stock branch. */
    method ClickStock()
      requires Layout()
      modifies stock, waste
      ensures View() == Session.ClickStock(old(View()))
    {
      ghost var t := View();
      StockClicked(stock, waste);
      assert CardsOf(tableau) == t.tableau && CardsOf(foundation) == t.foundation;
    }

    /** Lift from the waste: its top card becomes the hand. */
    method LiftWaste()
      requires Valid() && !dragging && waste.cards != []
      modifies this, waste
      ensures Valid()
      ensures View() == Lift(old(View()), WasteTop)
    {
      ghost var t := View();
      InvariantNoDuplicates(t);
      var moving := TakeRun(waste, |waste.cards| - 1);
      dragging, dragCards, dragFrom := true, moving, waste;
      origin := FromWaste;
      assert CardsOf(tableau) == t.tableau && CardsOf(foundation) == t.foundation;
      assert View() == Lift(t, WasteTop);
      LiftPreserves(t, WasteTop);
    }

    /** Lift from a column: the face-up card k and every card above it become
        the hand. */
    method LiftColumn(c: nat, k: nat)
      requires Valid() && !dragging && c < 7
      requires k < |tableau[c].cards| && tableau[c].cards[k].faceUp
      modifies this, tableau[c]
      ensures Valid()
      ensures View() == Lift(old(View()), TableauCard(c, k))
    {
      ghost var t := View();
      InvariantNoDuplicates(t);
      var moving := TakeRun(tableau[c], k);
      dragging, dragCards, dragFrom := true, moving, tableau[c];
      origin := FromTableau(c);
      assert CardsOf(tableau) == t.tableau[c := t.tableau[c][..k]];
      assert CardsOf(foundation) == t.foundation;
      assert View() == Lift(t, TableauCard(c, k));
      LiftPreserves(t, TableauCard(c, k));
    }

    /** Lift from a foundation: its top card becomes the hand. */
    method LiftFoundation(i: nat)
      requires Valid() && !dragging && i < 4 && foundation[i].cards != []
      modifies this, foundation[i]
      ensures Valid()
      ensures View() == Lift(old(View()), FoundationTop(i))
    {
      ghost var t := View();
      InvariantNoDuplicates(t);
      var f := foundation[i];
      var moving := TakeRun(f, |f.cards| - 1);
      dragging, dragCards, dragFrom := true, moving, f;
      origin := FromFoundation(i);
      assert CardsOf(tableau) == t.tableau;
      assert CardsOf(foundation) == t.foundation[i := t.foundation[i][..|t.foundation[i]| - 1]];
      assert View() == Lift(t, FoundationTop(i));
      LiftPreserves(t, FoundationTop(i));
    }

    /** The tableau scan of the pointer-down handler: the columns in order,
        each from its top card down, up to the first face-up card under the
        pointer. */
    method FindTouchedColumn(p: Pointer) returns (r: Option<(nat, nat)>)
      requires Layout()
      ensures r == TableauPick(CardsOf(tableau), p, 0)
    {
      ghost var ts := CardsOf(tableau);
      for ci := 0 to 7
        invariant forall c :: 0 <= c < ci ==> TopmostInColumn(ts[c], p, c, |ts[c]|).None?
      {
        var hit := TopmostTouched(tableau[ci].cards, p, ci);
        if hit.Some? {
          TableauPickFinds(ts, p, ci, hit.value);
          return Some((ci, hit.value));
        }
      }
      return None;
    }

    /** The foundation scan of the pointer-down handler: the first non-empty
        foundation whose top card is under the pointer. */
    method FindTouchedFoundation(p: Pointer) returns (r: Option<nat>)
      requires Layout()
      ensures r == FoundationPick(CardsOf(foundation), p, 0)
    {
      ghost var fs := CardsOf(foundation);
      for fi := 0 to 4
        invariant forall i :: 0 <= i < fi ==> !(fs[i] != [] && FoundationHit(p, i))
      {
        if foundation[fi].cards != [] && FoundationHit(p, fi) {
          FoundationPickFinds(fs, p, fi);
          return Some(fi);
        }
      }
      return None;
    }

    /** The pointer-down handler: a click on the stock draws or recycles;
        otherwise the waste top, then the first tableau column (its cards
        scanned from the top) with a face-up card under the pointer, then the
        first foundation whose top is under the pointer, is lifted from. */
    method PointerDown(p: Pointer)
      requires Valid() && !dragging
      modifies this, tableau, foundation, stock, waste
      ensures Valid()
      ensures View() == Session.PointerDown(old(View()), p)
    {
      ghost var t := View();
      if p.onStock {
        ClickStock();
        ClickStockPreserves(t);
      } else {
        LiftTouched(p);
      }
    }

    /** A pointer-down off the stock: the waste top, then the columns, then
        the foundations are tried for a card under the pointer. */
    method LiftTouched(p: Pointer)
      requires Valid() && !dragging && !p.onStock
      modifies this, tableau, foundation, stock, waste
      ensures Valid()
      ensures View() == Session.PointerDown(old(View()), p)
    {
      ghost var t := View();
      if waste.cards != [] && p.onWasteTop {
        assert Touched(t, p) == Some(WasteTop);
        LiftWaste();
        return;
      }
      var column := FindTouchedColumn(p);
      if column.Some? {
        assert Touched(t, p) == Some(TableauCard(column.value.0, column.value.1));
        LiftColumn(column.value.0, column.value.1);
        return;
      }
      var found := FindTouchedFoundation(p);
      if found.Some? {
        assert Touched(t, p) == Some(FoundationTop(found.value));
        LiftFoundation(found.value);
      } else {
        assert Touched(t, p) == None;
      }
    }

    /** The foundation scan of the pointer-up handler: the first foundation
        whose rectangle holds the pointer and that accepts the held run. */
    method FindFoundationTarget(fHit: seq<bool>) returns (r: Option<nat>)
      requires Layout() && |fHit| == 4
      ensures r == FirstFit(Foundation, CardsOf(foundation), fHit, dragCards, 0)
    {
      ghost var fs := CardsOf(foundation);
      for i := 0 to 4
        invariant FirstFit(Foundation, fs, fHit, dragCards, 0) == FirstFit(Foundation, fs, fHit, dragCards, i)
      {
        if fHit[i] {
          var ok := AcesCanAccept(foundation[i], dragCards);
          if ok {
            return Some(i);
          }
        }
      }
      return None;
    }

    /** The tableau scan of the pointer-up handler: the first column whose
        top card (or, when empty, whose own rectangle) holds the pointer and
        that accepts the held run. */
    method FindColumnTarget(tHit: seq<bool>) returns (r: Option<nat>)
      requires Layout() && |tHit| == 7
      ensures r == FirstFit(Tableau, CardsOf(tableau), tHit, dragCards, 0)
    {
      ghost var ts := CardsOf(tableau);
      for j := 0 to 7
        invariant FirstFit(Tableau, ts, tHit, dragCards, 0) == FirstFit(Tableau, ts, tHit, dragCards, j)
      {
        if tHit[j] {
          var ok := StacksCanAccept(tableau[j], dragCards);
          if ok {
            return Some(j);
          }
        }
      }
      return None;
    }

    /** The held run is added to the top of foundation i. */
    method PutOnFoundation(i: nat)
      requires Layout() && i < 4
      modifies foundation[i]
      ensures View() == old(View()).(foundation := old(View()).foundation[i := old(View()).foundation[i] + dragCards])
    {
      ghost var t := View();
      foundation[i].AddCards(dragCards);
      assert CardsOf(foundation) == t.foundation[i := t.foundation[i] + dragCards];
      assert CardsOf(tableau) == t.tableau;
    }

    /** The held run is added to the top of column j. */
    method PutOnColumn(j: nat)
      requires Layout() && j < 7
      modifies tableau[j]
      ensures View() == old(View()).(tableau := old(View()).tableau[j := old(View()).tableau[j] + dragCards])
    {
      ghost var t := View();
      tableau[j].AddCards(dragCards);
      assert CardsOf(tableau) == t.tableau[j := t.tableau[j] + dragCards];
      assert CardsOf(foundation) == t.foundation;
    }

    /** A refused run goes back onto the pile it was lifted from. */
    method ReturnHand()
      requires Layout() && dragging
      modifies dragFrom
      ensures View() == ReturnTo(old(View()), dragCards, origin)
    {
      ghost var t := View();
      dragFrom.AddCards(dragCards);
      match origin
      case FromWaste =>
        assert CardsOf(tableau) == t.tableau && CardsOf(foundation) == t.foundation;
      case FromTableau(c) =>
        assert CardsOf(tableau) == t.tableau[c := t.tableau[c] + dragCards];
        assert CardsOf(foundation) == t.foundation;
      case FromFoundation(i) =>
        assert CardsOf(tableau) == t.tableau;
        assert CardsOf(foundation) == t.foundation[i := t.foundation[i] + dragCards];
    }

    /** After a successful drop from a column, that column's top is turned up. */
    method SettleOrigin()
      requires Layout() && dragging
      modifies dragFrom
      ensures View() == Settle(old(View()), origin)
    {
      ghost var t := View();
      if dragFrom.kind == Tableau {
        TryAutoflipTableauTop(dragFrom);
        assert CardsOf(tableau) == t.tableau[origin.col := Autoflipped(t.tableau[origin.col])];
        assert CardsOf(foundation) == t.foundation;
      } else {
        assert CardsOf(tableau) == t.tableau && CardsOf(foundation) == t.foundation;
      }
    }

    /** The pointer-up handler, while a run is held: the foundations are
        tried first, then the columns; the first hit pile that accepts takes
        the run and a column it came from turns its new top up; otherwise the
        run goes back. The drag ends either way. */
    method PointerUp(fHit: seq<bool>, tHit: seq<bool>)
      requires Valid() && |fHit| == 4 && |tHit| == 7
      modifies this, tableau, foundation, stock, waste
      ensures Valid() && !dragging
      ensures View() == Drop(old(View()), fHit, tHit)
    {
      ghost var t := View();
      if dragging {
        Release(fHit, tHit);
      }
      DropPreserves(t, fHit, tHit);
    }

    /** The body of the pointer-up handler: find the pile that takes the
        run, then land it there or give it back. */
    method Release(fHit: seq<bool>, tHit: seq<bool>)
      requires Layout() && dragging && |fHit| == 4 && |tHit| == 7
      modifies this, tableau, foundation, waste
      ensures Layout() && !dragging
      ensures View() == Drop(old(View()), fHit, tHit)
    {
      var target := FindFoundationTarget(fHit);
      if target.Some? {
        LandOnFoundation(target.value, fHit, tHit);
      } else {
        var column := FindColumnTarget(tHit);
        if column.Some? {
          LandOnColumn(column.value, fHit, tHit);
        } else {
          GiveBack(fHit, tHit);
        }
      }
    }

    /** The run lands on foundation i, the first that takes it. */
    method LandOnFoundation(i: nat, fHit: seq<bool>, tHit: seq<bool>)
      requires Layout() && dragging && |fHit| == 4 && |tHit| == 7 && i < 4
      requires FirstFit(Foundation, CardsOf(foundation), fHit, dragCards, 0) == Some(i)
      modifies this, tableau, foundation, waste
      ensures Layout() && !dragging
      ensures View() == Drop(old(View()), fHit, tHit)
    {
      ghost var t := View();
      ghost var want := Drop(t, fHit, tHit);
      PutOnFoundation(i);
      assert want == Settle(View(), origin).(drag := Idle);
      SettleOrigin();
      EndDrag();
    }

    /** The run lands on column j, the first that takes it, no foundation
        having taken it. */
    method LandOnColumn(j: nat, fHit: seq<bool>, tHit: seq<bool>)
      requires Layout() && dragging && |fHit| == 4 && |tHit| == 7 && j < 7
      requires FirstFit(Foundation, CardsOf(foundation), fHit, dragCards, 0).None?
      requires FirstFit(Tableau, CardsOf(tableau), tHit, dragCards, 0) == Some(j)
      modifies this, tableau, foundation, waste
      ensures Layout() && !dragging
      ensures View() == Drop(old(View()), fHit, tHit)
    {
      ghost var t := View();
      ghost var want := Drop(t, fHit, tHit);
      PutOnColumn(j);
      assert want == Settle(View(), origin).(drag := Idle);
      SettleOrigin();
      EndDrag();
    }

    /** No pile takes the run: it goes back where it came from. */
    method GiveBack(fHit: seq<bool>, tHit: seq<bool>)
      requires Layout() && dragging && |fHit| == 4 && |tHit| == 7
      requires FirstFit(Foundation, CardsOf(foundation), fHit, dragCards, 0).None?
      requires FirstFit(Tableau, CardsOf(tableau), tHit, dragCards, 0).None?
      modifies this, tableau, foundation, waste
      ensures Layout() && !dragging
      ensures View() == Drop(old(View()), fHit, tHit)
    {
      ReturnHand();
      EndDrag();
    }

    /** The drag state is reset: nothing held, no origin pile. */
    method EndDrag()
      requires Layout() && dragging
      modifies this
      ensures Layout() && !dragging
      ensures View() == old(View()).(drag := Idle)
    {
      dragging, dragCards, dragFrom := false, [], null;
    }

    /** The win banner's test: on a reachable game it holds exactly when
        every foundation is a complete suit. */
    method Won() returns (won: bool)
      requires Valid()
      ensures won == HasWon(View().foundation)
      ensures won <==> forall i :: 0 <= i < 4 ==> |foundation[i].cards| == 13
    {
      won := FoundationsFull(foundation);
      WinMeansCompleteFoundations(View());
    }
  }

  /** The start of the event loop: deal a new game, then one press of the
      button and its release. */
  method FirstMove(deck: seq<Card>, p: Pointer, fHit: seq<bool>, tHit: seq<bool>) returns (g: Game)
    requires |deck| == 52 && OneOfEach(Ids(deck)) && AllFaceDown(deck)
    requires |fHit| == 4 && |tHit| == 7
    ensures g.Valid() && !g.dragging
    ensures g.View() == Drop(Session.PointerDown(Deal(deck), p), fHit, tHit)
  {
    g := new Game(deck);
    g.PointerDown(p);
    g.PointerUp(fHit, tHit);
  }
}
