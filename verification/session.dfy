/** A game session as a value: the thirteen piles, the run being dragged and
    where it came from, and the operations that the pointer drives (deal, a
    click on the stock, lift, drop). The invariants of the game are stated
    on this value and proved to be kept by every operation. */
module Session {
  import opened Cards
  import opened Piles
  import opened Rules

  /** Cards turned over per click on the stock. */
  const DRAW_COUNT: nat := 1

  /** The pile a lifted run came from. */
  datatype Origin = FromWaste | FromTableau(col: nat) | FromFoundation(idx: nat)

  /** The drag interaction: nothing held, or a run held away from its origin. */
  datatype Drag = Idle | Holding(cards: seq<Card>, origin: Origin)

  /** Seven tableau columns, four foundations, the stock, the waste, and the drag. */
  datatype Table = Table(tableau: seq<seq<Card>>, foundation: seq<seq<Card>>,
                         stock: seq<Card>, waste: seq<Card>, drag: Drag)

  /** Where the pointer went down, as the hit-test resolved it. */
  datatype Source = WasteTop | TableauCard(col: nat, pos: nat) | FoundationTop(idx: nat)

  predicate OriginOk(o: Origin)
  {
    match o
    case FromWaste => true
    case FromTableau(c) => c < 7
    case FromFoundation(i) => i < 4
  }

  predicate WellFormed(t: Table)
  {
    |t.tableau| == 7 && |t.foundation| == 4 && (t.drag.Holding? ==> OriginOk(t.drag.origin))
  }

  function Held(d: Drag): seq<Card>
  {
    if d.Holding? then d.cards else []
  }

  // ---------------------------------------------------------------- counting

  /** The identities of all cards in a list of piles. */
  function IdsOfPiles(ps: seq<seq<Card>>): multiset<CardId>
  {
    if ps == [] then multiset{} else IdsOfPiles(ps[..|ps| - 1]) + Ids(ps[|ps| - 1])
  }

  /** Total number of cards in a list of piles. */
  function Total(ps: seq<seq<Card>>): nat
  {
    if ps == [] then 0 else Total(ps[..|ps| - 1]) + |ps[|ps| - 1]|
  }

  /** Every card on the table, in hand included. */
  function AllIds(t: Table): multiset<CardId>
  {
    IdsOfPiles(t.tableau) + IdsOfPiles(t.foundation) + Ids(t.stock) + Ids(t.waste) + Ids(Held(t.drag))
  }

  /** Replacing one pile of a list changes the list's cards by exactly that pile's. */
  lemma {:induction false} IdsOfPilesUpdate(ps: seq<seq<Card>>, i: nat, x: seq<Card>)
    requires i < |ps|
    ensures IdsOfPiles(ps[i := x]) + Ids(ps[i]) == IdsOfPiles(ps) + Ids(x)
    ensures Total(ps[i := x]) + |ps[i]| == Total(ps) + |x|
  {
    var n := |ps|;
    var qs := ps[i := x];
    var init := ps[..n - 1];
    if i == n - 1 {
      assert qs[..n - 1] == init;
      SwapLast(IdsOfPiles(init), Ids(ps[i]), Ids(x));
    } else {
      IdsOfPilesUpdate(init, i, x);
      assert qs[..n - 1] == init[i := x];
      assert qs[n - 1] == ps[n - 1];
      SwapInner(IdsOfPiles(init[i := x]), IdsOfPiles(init), Ids(ps[i]), Ids(x), Ids(ps[n - 1]));
    }
  }

  lemma SwapLast(b: multiset<CardId>, was: multiset<CardId>, now: multiset<CardId>)
    ensures (b + now) + was == (b + was) + now
  {
    forall y ensures ((b + now) + was)[y] == ((b + was) + now)[y] {
    }
  }

  lemma SwapInner(a: multiset<CardId>, b: multiset<CardId>, was: multiset<CardId>,
                  now: multiset<CardId>, last: multiset<CardId>)
    requires a + was == b + now
    ensures (a + last) + was == (b + last) + now
  {
    forall y ensures ((a + last) + was)[y] == ((b + last) + now)[y] {
      assert (a + was)[y] == (b + now)[y];
    }
  }

  /** A list of piles holds as many card identities as cards. */
  lemma {:induction false} IdsOfPilesSize(ps: seq<seq<Card>>)
    ensures |IdsOfPiles(ps)| == Total(ps)
  {
    if ps != [] {
      IdsOfPilesSize(ps[..|ps| - 1]);
      IdsAppend(ps[|ps| - 1], []);
    }
  }

  /** Every pile's cards are among the cards of the list. */
  lemma {:induction false} IdsOfPilesContains(ps: seq<seq<Card>>, i: nat)
    requires i < |ps|
    ensures forall y :: Ids(ps[i])[y] <= IdsOfPiles(ps)[y]
  {
    var n := |ps|;
    var init := ps[..n - 1];
    assert IdsOfPiles(ps) == IdsOfPiles(init) + Ids(ps[n - 1]);
    if i < n - 1 {
      IdsOfPilesContains(init, i);
      assert init[i] == ps[i];
    }
  }

  lemma IdsOfEmptyPiles(ps: seq<seq<Card>>)
    requires forall i :: 0 <= i < |ps| ==> ps[i] == []
    ensures IdsOfPiles(ps) == multiset{} && Total(ps) == 0
  {
    if ps != [] {
      IdsOfEmptyPiles(ps[..|ps| - 1]);
    }
  }

  /** Putting m onto pile i adds exactly the cards of m. */
  lemma PutOnto(ps: seq<seq<Card>>, i: nat, m: seq<Card>)
    requires i < |ps|
    ensures IdsOfPiles(ps[i := ps[i] + m]) == IdsOfPiles(ps) + Ids(m)
  {
    IdsOfPilesUpdate(ps, i, ps[i] + m);
    IdsAppend(ps[i], m);
    var a := IdsOfPiles(ps[i := ps[i] + m]);
    forall y ensures a[y] == (IdsOfPiles(ps) + Ids(m))[y] {
      assert (a + Ids(ps[i]))[y] == (IdsOfPiles(ps) + Ids(ps[i] + m))[y];
    }
  }

  /** Taking the top part m off pile i removes exactly the cards of m. */
  lemma TakeFrom(ps: seq<seq<Card>>, i: nat, rest: seq<Card>, m: seq<Card>)
    requires i < |ps| && ps[i] == rest + m
    ensures IdsOfPiles(ps[i := rest]) + Ids(m) == IdsOfPiles(ps)
  {
    IdsOfPilesUpdate(ps, i, rest);
    IdsAppend(rest, m);
    var a := IdsOfPiles(ps[i := rest]);
    forall y ensures (a + Ids(m))[y] == IdsOfPiles(ps)[y] {
      assert (a + Ids(ps[i]))[y] == (IdsOfPiles(ps) + Ids(rest))[y];
    }
  }

  /** Replacing pile i by a pile with the same cards changes nothing. */
  lemma ReplaceSame(ps: seq<seq<Card>>, i: nat, x: seq<Card>)
    requires i < |ps| && Ids(x) == Ids(ps[i])
    ensures IdsOfPiles(ps[i := x]) == IdsOfPiles(ps)
  {
    IdsOfPilesUpdate(ps, i, x);
    var a := IdsOfPiles(ps[i := x]);
    forall y ensures a[y] == IdsOfPiles(ps)[y] {
      assert (a + Ids(ps[i]))[y] == (IdsOfPiles(ps) + Ids(x))[y];
    }
  }

  /** Moving the top part of the waste into the hand keeps every card. */
  lemma WasteToHand(t: Table, rest: seq<Card>, m: seq<Card>, o: Origin)
    requires t.drag == Idle && t.waste == rest + m
    ensures AllIds(t.(waste := rest, drag := Holding(m, o))) == AllIds(t)
  {
    var t' := t.(waste := rest, drag := Holding(m, o));
    IdsAppend(rest, m);
    forall y ensures AllIds(t')[y] == AllIds(t)[y] {
      assert Ids(t.waste)[y] == Ids(rest)[y] + Ids(m)[y];
    }
  }

  /** Moving the top part of a tableau column into the hand keeps every card. */
  lemma TableauToHand(t: Table, c: nat, rest: seq<Card>, m: seq<Card>, o: Origin)
    requires t.drag == Idle && c < |t.tableau| && t.tableau[c] == rest + m
    ensures AllIds(t.(tableau := t.tableau[c := rest], drag := Holding(m, o))) == AllIds(t)
  {
    var t' := t.(tableau := t.tableau[c := rest], drag := Holding(m, o));
    TakeFrom(t.tableau, c, rest, m);
    forall y ensures AllIds(t')[y] == AllIds(t)[y] {
      assert IdsOfPiles(t'.tableau)[y] + Ids(m)[y] == IdsOfPiles(t.tableau)[y];
    }
  }

  /** Moving the top part of a foundation into the hand keeps every card. */
  lemma FoundationToHand(t: Table, i: nat, rest: seq<Card>, m: seq<Card>, o: Origin)
    requires t.drag == Idle && i < |t.foundation| && t.foundation[i] == rest + m
    ensures AllIds(t.(foundation := t.foundation[i := rest], drag := Holding(m, o))) == AllIds(t)
  {
    var t' := t.(foundation := t.foundation[i := rest], drag := Holding(m, o));
    TakeFrom(t.foundation, i, rest, m);
    forall y ensures AllIds(t')[y] == AllIds(t)[y] {
      assert IdsOfPiles(t'.foundation)[y] + Ids(m)[y] == IdsOfPiles(t.foundation)[y];
    }
  }

  /** Putting the hand onto the waste keeps every card. */
  lemma HandToWaste(t: Table)
    requires t.drag.Holding?
    ensures AllIds(t.(waste := t.waste + t.drag.cards, drag := Idle)) == AllIds(t)
  {
    var m := t.drag.cards;
    var t' := t.(waste := t.waste + m, drag := Idle);
    IdsAppend(t.waste, m);
    IdsAppend([], []);
    forall y ensures AllIds(t')[y] == AllIds(t)[y] {
      assert Ids(t'.waste)[y] == Ids(t.waste)[y] + Ids(m)[y];
    }
  }

  /** Putting the hand onto a tableau column keeps every card. */
  lemma HandToTableau(t: Table, j: nat)
    requires t.drag.Holding? && j < |t.tableau|
    ensures AllIds(t.(tableau := t.tableau[j := t.tableau[j] + t.drag.cards], drag := Idle)) == AllIds(t)
  {
    var m := t.drag.cards;
    var t' := t.(tableau := t.tableau[j := t.tableau[j] + m], drag := Idle);
    PutOnto(t.tableau, j, m);
    IdsAppend([], []);
    forall y ensures AllIds(t')[y] == AllIds(t)[y] {
      assert IdsOfPiles(t'.tableau)[y] == IdsOfPiles(t.tableau)[y] + Ids(m)[y];
    }
  }

  /** Putting the hand onto a foundation keeps every card. */
  lemma HandToFoundation(t: Table, i: nat)
    requires t.drag.Holding? && i < |t.foundation|
    ensures AllIds(t.(foundation := t.foundation[i := t.foundation[i] + t.drag.cards], drag := Idle)) == AllIds(t)
  {
    var m := t.drag.cards;
    var t' := t.(foundation := t.foundation[i := t.foundation[i] + m], drag := Idle);
    PutOnto(t.foundation, i, m);
    IdsAppend([], []);
    forall y ensures AllIds(t')[y] == AllIds(t)[y] {
      assert IdsOfPiles(t'.foundation)[y] == IdsOfPiles(t.foundation)[y] + Ids(m)[y];
    }
  }

  // ---------------------------------------------------------------- the invariant

  /** Every foundation is a run of one suit from the Ace up. */
  ghost predicate FoundationsOk(fs: seq<seq<Card>>)
  {
    forall i :: 0 <= i < |fs| ==> FoundationRun(fs[i])
  }

  /** Every tableau column has its face-down part below a built face-up part. */
  ghost predicate TableauOk(ts: seq<seq<Card>>)
  {
    forall c :: 0 <= c < |ts| ==> TableauShape(ts[c])
  }

  /** Outside a drag every column shows its top card; during one, every column
      but the origin does, the hand is face up, and putting the hand back would
      give the origin the shape of its kind again. */
  ghost predicate HandOk(ts: seq<seq<Card>>, fs: seq<seq<Card>>, d: Drag)
  {
    match d
    case Idle => forall c :: 0 <= c < |ts| ==> Settled(ts[c])
    case Holding(m, o) =>
      && AllFaceUp(m)
      && (forall c :: 0 <= c < |ts| && o != FromTableau(c) ==> Settled(ts[c]))
      && match o
         case FromWaste => true
         case FromTableau(c) => c < |ts| && TableauShape(ts[c] + m) && Settled(ts[c] + m)
         case FromFoundation(i) => i < |fs| && FoundationRun(fs[i] + m)
  }

  lemma TableauOkUpdate(ts: seq<seq<Card>>, c: nat, x: seq<Card>)
    requires TableauOk(ts) && c < |ts| && TableauShape(x)
    ensures TableauOk(ts[c := x])
  {
  }

  lemma FoundationsOkUpdate(fs: seq<seq<Card>>, i: nat, x: seq<Card>)
    requires FoundationsOk(fs) && i < |fs| && FoundationRun(x)
    ensures FoundationsOk(fs[i := x])
  {
  }

  /** What holds of every table the game can reach. */
  ghost predicate Invariant(t: Table)
  {
    && WellFormed(t)
    && OneOfEach(AllIds(t))
    && FoundationsOk(t.foundation)
    && TableauOk(t.tableau)
    && AllFaceDown(t.stock)
    && AllFaceUp(t.waste)
    && HandOk(t.tableau, t.foundation, t.drag)
  }

  /** On a reachable table there are 52 cards and no pile holds a card twice. */
  lemma InvariantNoDuplicates(t: Table)
    requires Invariant(t)
    ensures |AllIds(t)| == 52
    ensures forall c :: 0 <= c < 7 ==> DistinctIds(t.tableau[c])
    ensures forall i :: 0 <= i < 4 ==> DistinctIds(t.foundation[i])
    ensures DistinctIds(t.stock) && DistinctIds(t.waste) && DistinctIds(Held(t.drag))
  {
    var all := AllIds(t);
    OneOfEachIsFullDeck(all);
    forall c | 0 <= c < 7 ensures DistinctIds(t.tableau[c]) {
      IdsOfPilesContains(t.tableau, c);
      DistinctWithin(t.tableau[c], all);
    }
    forall i | 0 <= i < 4 ensures DistinctIds(t.foundation[i]) {
      IdsOfPilesContains(t.foundation, i);
      DistinctWithin(t.foundation[i], all);
    }
    DistinctWithin(t.stock, all);
    DistinctWithin(t.waste, all);
    DistinctWithin(Held(t.drag), all);
  }

  // ---------------------------------------------------------------- deal

  /** Cards dealt to the first c columns together: 0, 1, 3, 6, ..., 28. */
  function Dealt(c: nat): (d: nat)
    ensures c <= 7 ==> d <= 7 * c
  {
    if c == 0 then 0 else Dealt(c - 1) + c
  }

  /** Column c: c + 1 cards popped one by one from the end of the deck that is
      left, then the last of them turned face up. */
  function DealColumn(deck: seq<Card>, c: nat): seq<Card>
    requires |deck| == 52 && c < 7
  {
    seq(c + 1, k requires 0 <= k < c + 1 =>
      if k == c then deck[51 - Dealt(c) - k].(faceUp := true) else deck[51 - Dealt(c) - k])
  }

  /** The opening table for a shuffled deck: the seven columns, then the rest
      of the deck, in order, as the stock. */
  function Deal(deck: seq<Card>): (r: Table)
    requires |deck| == 52
    ensures |r.tableau| == 7
    ensures forall c :: 0 <= c < 7 ==> |r.tableau[c]| == c + 1 && r.tableau[c][c].faceUp
    ensures |r.stock| == 24 && r.waste == [] && r.drag == Idle
    ensures |r.foundation| == 4 && forall i :: 0 <= i < 4 ==> r.foundation[i] == []
  {
    Table(seq(7, c requires 0 <= c < 7 => DealColumn(deck, c)),
          [[], [], [], []], deck[..24], [], Idle)
  }

  /** The deal gives column c exactly c + 1 cards, taken from the end of the
      deck, with only the top face up, puts the other 24 cards on the stock in
      deck order, and leaves the foundations, the waste and the hand empty. */
  lemma DealShape(deck: seq<Card>)
    requires |deck| == 52 && AllFaceDown(deck)
    ensures forall c :: 0 <= c < 7 ==> |Deal(deck).tableau[c]| == c + 1
    ensures forall c, k :: 0 <= c < 7 && 0 <= k < c + 1 ==>
              && Id(Deal(deck).tableau[c][k]) == Id(deck[51 - Dealt(c) - k])
              && (Deal(deck).tableau[c][k].faceUp <==> k == c)
    ensures Deal(deck).stock == deck[..24]
    ensures Deal(deck).waste == [] && Deal(deck).drag == Idle
    ensures forall i :: 0 <= i < 4 ==> Deal(deck).foundation[i] == []
  {
    forall c, k | 0 <= c < 7 && 0 <= k < c + 1
      ensures Id(Deal(deck).tableau[c][k]) == Id(deck[51 - Dealt(c) - k])
      ensures Deal(deck).tableau[c][k].faceUp <==> k == c
    {
      DealColumnShape(deck, c);
    }
  }

  /** Column c is its c + 1 deck cards, in the order they were popped, the
      last of them turned up. */
  lemma DealColumnShape(deck: seq<Card>, c: nat)
    requires |deck| == 52 && AllFaceDown(deck) && c < 7
    ensures forall k :: 0 <= k < c + 1 ==>
              && Id(DealColumn(deck, c)[k]) == Id(deck[51 - Dealt(c) - k])
              && (DealColumn(deck, c)[k].faceUp <==> k == c)
  {
  }

  /** What is left of the deck once the first n columns are dealt. */
  function Undealt(deck: seq<Card>, n: nat): seq<Card>
    requires |deck| == 52 && n <= 7
  {
    deck[..52 - Dealt(n)]
  }

  /** Dealing column c takes its c + 1 cards off the end of what is left. */
  lemma UndealtSplit(deck: seq<Card>, c: nat)
    requires |deck| == 52 && c < 7
    ensures Undealt(deck, c) == Undealt(deck, c + 1) + DealtSlice(deck, c)
    ensures |DealtSlice(deck, c)| == c + 1
    ensures TurnedUp(Reverse(DealtSlice(deck, c))) == DealColumn(deck, c)
  {
    PoppedOrder(deck, c);
  }

  lemma UndealtAll(deck: seq<Card>)
    requires |deck| == 52
    ensures Undealt(deck, 0) == deck && Undealt(deck, 7) == deck[..24]
  {
    assert Dealt(7) == 28;
  }

  /** Every column of the deal is shaped and shows its top card. */
  lemma DealColumnSettled(deck: seq<Card>, c: nat)
    requires |deck| == 52 && AllFaceDown(deck) && c < 7
    ensures TableauShape(DealColumn(deck, c)) && Settled(DealColumn(deck, c))
  {
    var col := DealColumn(deck, c);
    DealColumnShape(deck, c);
    assert forall k :: 0 <= k < |col| - 1 ==> !col[k].faceUp;
  }

  /** Dealing a shuffled full deck, all face down, starts a table on which the
      game's invariants hold. */
  lemma DealStartsValid(deck: seq<Card>)
    requires OneOfEach(Ids(deck)) && AllFaceDown(deck)
    ensures |deck| == 52
    ensures Invariant(Deal(deck))
  {
    ShuffleOfFullDeck(deck);
    DealSettled(deck);
    DealConserves(deck);
  }

  lemma DealSettled(deck: seq<Card>)
    requires |deck| == 52 && AllFaceDown(deck)
    ensures TableauOk(Deal(deck).tableau) && HandOk(Deal(deck).tableau, Deal(deck).foundation, Idle)
  {
    var t := Deal(deck);
    forall c | 0 <= c < 7 ensures TableauShape(t.tableau[c]) && Settled(t.tableau[c]) {
      DealColumnSettled(deck, c);
    }
  }

  /** The deal moves every card of the deck onto the table. */
  lemma DealConserves(deck: seq<Card>)
    requires |deck| == 52
    ensures AllIds(Deal(deck)) == Ids(deck)
  {
    var t := Deal(deck);
    TableauConserves(deck);
    assert deck[..24] + deck[24..] == deck;
    IdsAppend(deck[..24], deck[24..]);
    IdsOfEmptyPiles(t.foundation);
    IdsAppend([], []);
    forall y ensures AllIds(t)[y] == Ids(deck)[y] {
      assert Ids(deck)[y] == Ids(deck[..24])[y] + Ids(deck[24..])[y];
    }
  }

  /** The seven columns hold the last 28 cards of the deck. */
  lemma TableauConserves(deck: seq<Card>)
    requires |deck| == 52
    ensures IdsOfPiles(Deal(deck).tableau) == Ids(deck[24..])
  {
    var cols := Deal(deck).tableau;
    forall c | 0 <= c < 7
      ensures Ids(cols[c]) == Ids(DealtSlice(deck, c))
    {
      ColumnConserves(deck, c);
    }
    DealtColumnsConserve(cols, deck, 7);
    assert cols[..7] == cols;
    DealtPartAll(deck);
  }

  lemma DealtPartAll(deck: seq<Card>)
    requires |deck| == 52
    ensures DealtPart(deck, 7) == deck[24..]
  {
    assert Dealt(7) == 28;
  }

  /** Columns that each hold the deck slice dealt to them hold, together,
      the cards dealt to them all. */
  lemma {:induction false} DealtColumnsConserve(cols: seq<seq<Card>>, deck: seq<Card>, n: nat)
    requires |deck| == 52 && n <= 7 && n <= |cols|
    requires forall c :: 0 <= c < n ==> Ids(cols[c]) == Ids(DealtSlice(deck, c))
    ensures IdsOfPiles(cols[..n]) == Ids(DealtPart(deck, n))
  {
    if n == 0 {
      assert DealtPart(deck, 0) == [] && cols[..0] == [];
      IdsAppend([], []);
    } else {
      DealtColumnsConserve(cols, deck, n - 1);
      assert cols[..n][..n - 1] == cols[..n - 1];
      DealtPartGrows(deck, n);
      AddUp(IdsOfPiles(cols[..n]), IdsOfPiles(cols[..n - 1]), Ids(cols[n - 1]),
            Ids(DealtPart(deck, n)), Ids(DealtPart(deck, n - 1)), Ids(DealtSlice(deck, n - 1)));
    }
  }

  /** The cards dealt to the first n columns: the last Dealt(n) of the deck. */
  function DealtPart(deck: seq<Card>, n: nat): seq<Card>
    requires |deck| == 52 && n <= 7
  {
    deck[52 - Dealt(n)..]
  }

  lemma DealtPartGrows(deck: seq<Card>, n: nat)
    requires |deck| == 52 && 0 < n <= 7
    ensures Ids(DealtPart(deck, n)) == Ids(DealtSlice(deck, n - 1)) + Ids(DealtPart(deck, n - 1))
  {
    assert DealtPart(deck, n) == DealtSlice(deck, n - 1) + DealtPart(deck, n - 1);
    IdsAppend(DealtSlice(deck, n - 1), DealtPart(deck, n - 1));
  }

  lemma AddUp(w: multiset<CardId>, p: multiset<CardId>, q: multiset<CardId>,
              x: multiset<CardId>, u: multiset<CardId>, v: multiset<CardId>)
    requires w == p + q && p == u && q == v && x == v + u
    ensures w == x
  {
    forall y ensures w[y] == x[y] {
    }
  }

  /** The cards of the deck that column c is dealt from. */
  function DealtSlice(deck: seq<Card>, c: nat): seq<Card>
    requires |deck| == 52 && c < 7
  {
    deck[52 - Dealt(c + 1)..52 - Dealt(c)]
  }

  /** Column c holds exactly the deck cards it was dealt. */
  lemma ColumnConserves(deck: seq<Card>, c: nat)
    requires |deck| == 52 && c < 7
    ensures Ids(DealColumn(deck, c)) == Ids(DealtSlice(deck, c))
  {
    IdsReverse(DealtSlice(deck, c));
    ColumnIsReversedSlice(deck, c);
  }

  /** Column c is the slice of the deck it was dealt from, in popping order
      (the slice reversed), up to faces. */
  lemma ColumnIsReversedSlice(deck: seq<Card>, c: nat)
    requires |deck| == 52 && c < 7
    ensures IdSeq(DealColumn(deck, c)) == IdSeq(Reverse(DealtSlice(deck, c)))
    ensures Ids(DealColumn(deck, c)) == Ids(Reverse(DealtSlice(deck, c)))
  {
    var popped := Reverse(DealtSlice(deck, c));
    var col := DealColumn(deck, c);
    PoppedOrder(deck, c);
    forall k | 0 <= k < c + 1 ensures Id(col[k]) == Id(popped[k]) {
    }
    IdsIgnoreFaces(col, popped);
  }

  /** Popping the slice of column c from the end of the deck yields its cards last first. */
  lemma PoppedOrder(deck: seq<Card>, c: nat)
    requires |deck| == 52 && c < 7
    ensures |Reverse(DealtSlice(deck, c))| == c + 1
    ensures forall k :: 0 <= k < c + 1 ==> Reverse(DealtSlice(deck, c))[k] == deck[51 - Dealt(c) - k]
  {
  }

  // ---------------------------------------------------------------- stock

  /** A click on the stock, on the stock and the waste: draw DRAW_COUNT
      cards, or fewer if the stock runs out; on an empty stock, recycle a
      non-empty waste; with both empty, nothing. */
  function StockClick(stock: seq<Card>, waste: seq<Card>): (r: (seq<Card>, seq<Card>))
    ensures Ids(r.0) + Ids(r.1) == Ids(stock) + Ids(waste)
    ensures stock != [] ==> 0 < |stock| - |r.0| <= DRAW_COUNT && r.0 == stock[..|r.0|]
    ensures stock == [] ==> r.1 == [] && |r.0| == |waste|
  {
    if stock != [] then
      var n := if DRAW_COUNT < |stock| then DRAW_COUNT else |stock|;
      DrawConserves(stock, waste, n);
      DrawTimes(stock, waste, n)
    else if waste != [] then Recycled(stock, waste)
    else (stock, waste)
  }

  /** A click on the stock changes only the stock and the waste. */
  function ClickStock(t: Table): (r: Table)
    ensures r.tableau == t.tableau && r.foundation == t.foundation && r.drag == t.drag
    ensures Ids(r.stock) + Ids(r.waste) == Ids(t.stock) + Ids(t.waste)
  {
    var r := StockClick(t.stock, t.waste);
    t.(stock := r.0, waste := r.1)
  }

  /** k clicks on the stock in a row. */
  function ClickStockTimes(t: Table, k: nat): Table
  {
    if k == 0 then t else ClickStock(ClickStockTimes(t, k - 1))
  }

  /** A click on the stock neither creates nor loses a card. */
  lemma ClickStockConserves(t: Table)
    ensures AllIds(ClickStock(t)) == AllIds(t)
  {
    var t' := ClickStock(t);
    if t.stock != [] {
      var n := if DRAW_COUNT < |t.stock| then DRAW_COUNT else |t.stock|;
      DrawConserves(t.stock, t.waste, n);
    } else if t.waste != [] {
      IdsAppend([], []);
    }
    StockAndWasteOnly(t, t');
  }

  /** Two tables that differ only in how the same cards lie on the stock and
      the waste hold the same cards. */
  lemma StockAndWasteOnly(t: Table, t': Table)
    requires t'.tableau == t.tableau && t'.foundation == t.foundation && t'.drag == t.drag
    requires Ids(t'.stock) + Ids(t'.waste) == Ids(t.stock) + Ids(t.waste)
    ensures AllIds(t') == AllIds(t)
  {
    forall y ensures AllIds(t')[y] == AllIds(t)[y] {
      assert (Ids(t'.stock) + Ids(t'.waste))[y] == (Ids(t.stock) + Ids(t.waste))[y];
    }
  }

  /** A click on the stock keeps every invariant and touches only the stock and the waste. */
  lemma ClickStockPreserves(t: Table)
    requires Invariant(t)
    ensures Invariant(ClickStock(t))
    ensures ClickStock(t).tableau == t.tableau && ClickStock(t).foundation == t.foundation
    ensures ClickStock(t).drag == t.drag
  {
    var t' := ClickStock(t);
    ClickStockConserves(t);
    if t.stock != [] {
      var n := if DRAW_COUNT < |t.stock| then DRAW_COUNT else |t.stock|;
      DrawKeepsFaces(t.stock, t.waste, n);
    }
  }

  /** With an empty waste, clicking through the whole stock and once more
      brings the stock back exactly as it was. */
  lemma ClickStockCycle(t: Table)
    requires Invariant(t)
    requires t.waste == []
    ensures ClickStockTimes(t, |t.stock| + 1) == t
  {
    var s := t.stock;
    ClickThroughStock(t, |s|);
    assert s[..0] == [];
    DrawAllThenRecycle(s, []);
  }

  /** After k <= |stock| clicks, each has drawn exactly one card. */
  lemma {:induction false} ClickThroughStock(t: Table, k: nat)
    requires k <= |t.stock|
    ensures ClickStockTimes(t, k)
            == t.(stock := DrawTimes(t.stock, t.waste, k).0, waste := DrawTimes(t.stock, t.waste, k).1)
  {
    if k > 0 {
      ClickThroughStock(t, k - 1);
      var prev := DrawTimes(t.stock, t.waste, k - 1);
      assert DrawTimes(prev.0, prev.1, 1) == DrawOne(prev.0, prev.1);
    }
  }

  // ---------------------------------------------------------------- lift

  /** Pointer down on a pile: the touched card and everything above it go
      into the hand. Only the waste top, a face-up tableau card, or a
      foundation top can be taken; anything else leaves the table as it was. */
  function Lift(t: Table, src: Source): (r: Table)
    requires WellFormed(t)
    ensures WellFormed(r) && r.stock == t.stock
    ensures r != t ==> r.drag.Holding? && r.drag.cards != []
    ensures src.WasteTop? && r != t ==>
              && r.drag.Holding? && r.waste + r.drag.cards == t.waste && |r.drag.cards| == 1
    ensures src.TableauCard? && r != t ==>
              && src.col < 7 && r.drag.Holding? && r.drag.cards != [] && r.drag.cards[0].faceUp
              && r.tableau[src.col] + r.drag.cards == t.tableau[src.col]
    ensures src.FoundationTop? && r != t ==>
              && src.idx < 4 && r.drag.Holding? && |r.drag.cards| == 1
              && r.foundation[src.idx] + r.drag.cards == t.foundation[src.idx]
  {
    match src
    case WasteTop =>
      if t.waste == [] then t
      else
        var n := |t.waste| - 1;
        t.(waste := t.waste[..n], drag := Holding(t.waste[n..], FromWaste))
    case TableauCard(c, pos) =>
      if c < 7 && pos < |t.tableau[c]| && t.tableau[c][pos].faceUp then
        var p := t.tableau[c];
        t.(tableau := t.tableau[c := p[..pos]], drag := Holding(p[pos..], FromTableau(c)))
      else t
    case FoundationTop(i) =>
      if i < 4 && t.foundation[i] != [] then
        var f := t.foundation[i];
        var n := |f| - 1;
        t.(foundation := t.foundation[i := f[..n]], drag := Holding(f[n..], FromFoundation(i)))
      else t
  }

  /** Lifting moves cards into the hand and neither creates nor loses any. */
  lemma LiftConserves(t: Table, src: Source)
    requires WellFormed(t) && t.drag == Idle
    ensures AllIds(Lift(t, src)) == AllIds(t)
  {
    match src
    case WasteTop =>
      if t.waste != [] {
        var n := |t.waste| - 1;
        assert t.waste == t.waste[..n] + t.waste[n..];
        WasteToHand(t, t.waste[..n], t.waste[n..], FromWaste);
      }
    case TableauCard(c, pos) =>
      if c < 7 && pos < |t.tableau[c]| && t.tableau[c][pos].faceUp {
        var p := t.tableau[c];
        assert p == p[..pos] + p[pos..];
        TableauToHand(t, c, p[..pos], p[pos..], FromTableau(c));
      }
    case FoundationTop(i) =>
      if i < 4 && t.foundation[i] != [] {
        var f := t.foundation[i];
        var n := |f| - 1;
        assert f == f[..n] + f[n..];
        FoundationToHand(t, i, f[..n], f[n..], FromFoundation(i));
      }
  }

  /** Lifting keeps every invariant: the hand is face up, and the origin with
      the hand put back on it still has the shape of its kind. */
  lemma LiftPreserves(t: Table, src: Source)
    requires Invariant(t) && t.drag == Idle
    ensures Invariant(Lift(t, src))
  {
    LiftConserves(t, src);
    match src
    case WasteTop =>
      if t.waste != [] {
        var n := |t.waste| - 1;
        assert AllFaceUp(t.waste[n..]);
        assert AllFaceUp(t.waste[..n]);
      }
    case TableauCard(c, pos) =>
      if c < 7 && pos < |t.tableau[c]| && t.tableau[c][pos].faceUp {
        var p := t.tableau[c];
        assert Lift(t, src) == t.(tableau := t.tableau[c := p[..pos]], drag := Holding(p[pos..], FromTableau(c)));
        LiftTableauKeepsShapes(t.tableau, t.foundation, c, pos);
      }
    case FoundationTop(i) =>
      if i < 4 && t.foundation[i] != [] {
        LiftFoundationKeepsShapes(t, i);
      }
  }

  /** Taking the run from a face-up card of a column keeps the columns shaped,
      and the hand is that run, ready to go back where it came from. */
  lemma LiftTableauKeepsShapes(ts: seq<seq<Card>>, fs: seq<seq<Card>>, c: nat, pos: nat)
    requires TableauOk(ts) && HandOk(ts, fs, Idle)
    requires c < |ts| && pos < |ts[c]| && ts[c][pos].faceUp
    ensures TableauOk(ts[c := ts[c][..pos]])
    ensures HandOk(ts[c := ts[c][..pos]], fs, Holding(ts[c][pos..], FromTableau(c)))
  {
    var p := ts[c];
    assert p[..pos] + p[pos..] == p;
    TableauShapePrefix(p[..pos], p[pos..]);
    TableauOkUpdate(ts, c, p[..pos]);
    TableauLiftIsRun(p, pos);
    HandFromTableau(ts, fs, c, p[..pos], p[pos..]);
  }

  lemma HandFromTableau(ts: seq<seq<Card>>, fs: seq<seq<Card>>, c: nat, rest: seq<Card>, m: seq<Card>)
    requires c < |ts| && ts[c] == rest + m && HandOk(ts, fs, Idle)
    requires TableauShape(ts[c]) && ValidRun(m)
    ensures HandOk(ts[c := rest], fs, Holding(m, FromTableau(c)))
  {
  }

  lemma LiftFoundationKeepsShapes(t: Table, i: nat)
    requires Invariant(t) && t.drag == Idle
    requires i < 4 && t.foundation[i] != []
    requires OneOfEach(AllIds(Lift(t, FoundationTop(i))))
    ensures Invariant(Lift(t, FoundationTop(i)))
  {
    var f := t.foundation[i];
    var n := |f| - 1;
    var t' := Lift(t, FoundationTop(i));
    assert f[..n] + f[n..] == f;
    FoundationRunPrefix(f[..n], f[n..]);
    assert FoundationsOk(t'.foundation);
    assert HandOk(t'.tableau, t'.foundation, t'.drag);
  }

  /** Touching a face-up tableau card on a reachable table lifts exactly what
      the pile's own removal from that card detaches, and that is always a
      valid run. */
  lemma LiftTakesTouchedRun(t: Table, c: nat, pos: nat)
    requires Invariant(t) && t.drag == Idle
    requires c < 7 && pos < |t.tableau[c]| && t.tableau[c][pos].faceUp
    ensures var t' := Lift(t, TableauCard(c, pos));
            t'.drag.Holding? && Split(t.tableau[c], t.tableau[c][pos]) == (t'.tableau[c], t'.drag.cards)
    ensures ValidRun(Lift(t, TableauCard(c, pos)).drag.cards)
  {
    var p := t.tableau[c];
    InvariantNoDuplicates(t);
    SplitAtPosition(p, pos);
    TableauLiftIsRun(p, pos);
  }

  // ---------------------------------------------------------------- pointer down

  /** What the hit-tests report where the pointer went down: inside the stock's
      rectangle, on the waste's top card, on card k of column c, on the top
      card of foundation i. A position the vectors do not cover is a miss. */
  datatype Pointer = Pointer(onStock: bool, onWasteTop: bool,
                             onCard: seq<seq<bool>>, onFoundationTop: seq<bool>)

  predicate CardHit(p: Pointer, c: nat, k: nat)
  {
    c < |p.onCard| && k < |p.onCard[c]| && p.onCard[c][k]
  }

  predicate FoundationHit(p: Pointer, i: nat)
  {
    i < |p.onFoundationTop| && p.onFoundationTop[i]
  }

  /** Scanning column c downward from just below `below`: the first face-up
      card under the pointer. */
  function TopmostInColumn(col: seq<Card>, p: Pointer, c: nat, below: nat): (r: Option<nat>)
    requires below <= |col|
    ensures r.Some? ==> r.value < below && col[r.value].faceUp && CardHit(p, c, r.value)
    ensures r.Some? ==> forall k :: r.value < k < below ==> !(col[k].faceUp && CardHit(p, c, k))
    ensures r.None? ==> forall k :: 0 <= k < below ==> !(col[k].faceUp && CardHit(p, c, k))
  {
    if below == 0 then None
    else if col[below - 1].faceUp && CardHit(p, c, below - 1) then Some(below - 1)
    else TopmostInColumn(col, p, c, below - 1)
  }

  /** Scanning the columns from `from` on: the first one holding a face-up
      card under the pointer, with its topmost such card. */
  function TableauPick(ts: seq<seq<Card>>, p: Pointer, from: nat): (r: Option<(nat, nat)>)
    requires from <= |ts|
    decreases |ts| - from
    ensures r.Some? ==> from <= r.value.0 < |ts| && r.value.1 < |ts[r.value.0]|
    ensures r.Some? ==> TopmostInColumn(ts[r.value.0], p, r.value.0, |ts[r.value.0]|) == Some(r.value.1)
    ensures r.Some? ==> forall c :: from <= c < r.value.0 ==> TopmostInColumn(ts[c], p, c, |ts[c]|).None?
    ensures r.None? ==> forall c :: from <= c < |ts| ==> TopmostInColumn(ts[c], p, c, |ts[c]|).None?
  {
    if from == |ts| then None
    else
      match TopmostInColumn(ts[from], p, from, |ts[from]|)
      case Some(k) => Some((from, k))
      case None => TableauPick(ts, p, from + 1)
  }

  /** Scanning the foundations from `from` on: the first non-empty one whose
      top card is under the pointer. */
  function FoundationPick(fs: seq<seq<Card>>, p: Pointer, from: nat): (r: Option<nat>)
    requires from <= |fs|
    decreases |fs| - from
    ensures r.Some? ==> from <= r.value < |fs| && fs[r.value] != [] && FoundationHit(p, r.value)
    ensures r.Some? ==> forall i :: from <= i < r.value ==> !(fs[i] != [] && FoundationHit(p, i))
    ensures r.None? ==> forall i :: from <= i < |fs| ==> !(fs[i] != [] && FoundationHit(p, i))
  {
    if from == |fs| then None
    else if fs[from] != [] && FoundationHit(p, from) then Some(from)
    else FoundationPick(fs, p, from + 1)
  }

  /** The column scan stops at the first column with a touched card. */
  lemma TableauPickFinds(ts: seq<seq<Card>>, p: Pointer, c: nat, k: nat)
    requires c < |ts|
    requires forall c' :: 0 <= c' < c ==> TopmostInColumn(ts[c'], p, c', |ts[c']|).None?
    requires TopmostInColumn(ts[c], p, c, |ts[c]|) == Some(k)
    ensures TableauPick(ts, p, 0) == Some((c, k))
  {
  }

  /** The foundation scan stops at the first non-empty foundation whose top is hit. */
  lemma FoundationPickFinds(fs: seq<seq<Card>>, p: Pointer, i: nat)
    requires i < |fs| && fs[i] != [] && FoundationHit(p, i)
    requires forall i' :: 0 <= i' < i ==> !(fs[i'] != [] && FoundationHit(p, i'))
    ensures FoundationPick(fs, p, 0) == Some(i)
  {
  }

  /** The pile a pointer-down lifts from, if any: the waste top first, then
      the tableau, then the foundations. */
  function Touched(t: Table, p: Pointer): (r: Option<Source>)
    requires WellFormed(t)
    ensures r == Some(WasteTop) <==> t.waste != [] && p.onWasteTop
    ensures r.Some? && r.value.TableauCard? ==>
              && r.value.col < 7 && r.value.pos < |t.tableau[r.value.col]|
              && t.tableau[r.value.col][r.value.pos].faceUp && CardHit(p, r.value.col, r.value.pos)
    ensures r.Some? && r.value.FoundationTop? ==>
              r.value.idx < 4 && t.foundation[r.value.idx] != [] && FoundationHit(p, r.value.idx)
    ensures r.None? ==> forall i :: 0 <= i < 4 ==> !(t.foundation[i] != [] && FoundationHit(p, i))
  {
    if t.waste != [] && p.onWasteTop then Some(WasteTop)
    else
      match TableauPick(t.tableau, p, 0)
      case Some(ck) => Some(TableauCard(ck.0, ck.1))
      case None =>
        match FoundationPick(t.foundation, p, 0)
        case Some(i) => Some(FoundationTop(i))
        case None => None
  }

  /** Pointer down: a click on the stock draws or recycles; otherwise the
      touched run, if any, is lifted into the hand. */
  function PointerDown(t: Table, p: Pointer): (r: Table)
    requires WellFormed(t)
    ensures WellFormed(r)
    ensures p.onStock ==> r.tableau == t.tableau && r.foundation == t.foundation && r.drag == t.drag
    ensures !p.onStock ==> r.stock == t.stock
  {
    if p.onStock then ClickStock(t)
    else
      match Touched(t, p)
      case Some(src) => Lift(t, src)
      case None => t
  }

  /** A pointer-down keeps every invariant. */
  lemma PointerDownPreserves(t: Table, p: Pointer)
    requires Invariant(t) && t.drag == Idle
    ensures Invariant(PointerDown(t, p))
  {
    if p.onStock {
      ClickStockPreserves(t);
    } else {
      var src := Touched(t, p);
      if src.Some? {
        assert PointerDown(t, p) == Lift(t, src.value);
        LiftPreserves(t, src.value);
      }
    }
  }

  /** A pointer-down off the stock lifts a run exactly when it touches one,
      and otherwise leaves the table alone. */
  lemma PointerDownLiftsWhatItTouches(t: Table, p: Pointer)
    requires WellFormed(t) && t.drag == Idle
    ensures PointerDown(t, p).drag.Holding? <==> !p.onStock && Touched(t, p).Some?
    ensures !p.onStock && Touched(t, p).None? ==> PointerDown(t, p) == t
  {
  }

  /** The run lifted from the tableau is the touched card and everything
      above it, and it is a valid run. */
  lemma PointerDownLiftsTouchedRun(t: Table, p: Pointer, c: nat, k: nat)
    requires Invariant(t) && t.drag == Idle && !p.onStock
    requires Touched(t, p) == Some(TableauCard(c, k))
    ensures c < 7 && k < |t.tableau[c]| && t.tableau[c][k].faceUp && CardHit(p, c, k)
    ensures PointerDown(t, p).tableau[c] == t.tableau[c][..k]
    ensures PointerDown(t, p).drag == Holding(t.tableau[c][k..], FromTableau(c))
    ensures ValidRun(PointerDown(t, p).drag.cards)
  {
    LiftTakesTouchedRun(t, c, k);
  }

  /** What a pointer-down leads to, counting a crash of the handler. */
  datatype Outcome = Running(table: Table) | Crashed

  /** The handler as written: when the pointer misses the stock, the waste top
      and every face-up tableau card, the loop meant to scan the foundations
      iterates over the foundation pile class instead, which raises a type
      error that nothing catches. */
  function PointerDownAsWritten(t: Table, p: Pointer): (r: Outcome)
    requires WellFormed(t)
    ensures p.onStock ==> r.Running?
    ensures r == Crashed ==> !p.onStock && TableauPick(t.tableau, p, 0).None?
  {
    if p.onStock then Running(ClickStock(t))
    else if t.waste != [] && p.onWasteTop then Running(Lift(t, WasteTop))
    else
      match TableauPick(t.tableau, p, 0)
      case Some(ck) => Running(Lift(t, TableauCard(ck.0, ck.1)))
      case None => Crashed
  }

  /** The handler as written and as intended agree wherever the written one
      does not crash; it crashes on every pointer-down that misses the stock,
      the waste top and the face-up tableau cards: on a foundation top, where
      the intended handler lifts that card, and on the empty felt, where it
      leaves the table alone. */
  lemma AsWrittenCrashesOffTheTableau(t: Table, p: Pointer)
    requires WellFormed(t)
    ensures PointerDownAsWritten(t, p).Running? ==> PointerDownAsWritten(t, p).table == PointerDown(t, p)
    ensures PointerDownAsWritten(t, p) == Crashed <==>
              !p.onStock && !(t.waste != [] && p.onWasteTop) && TableauPick(t.tableau, p, 0).None?
    ensures PointerDownAsWritten(t, p) == Crashed && FoundationPick(t.foundation, p, 0).Some? ==>
              PointerDown(t, p).drag.Holding? && PointerDown(t, p).drag.origin.FromFoundation?
  {
  }

  /** A concrete case: the felt with one Ace on the first foundation, and a
      pointer-down on that Ace. */
  lemma AsWrittenCrashesOnFoundationAce()
    ensures var ace := Card(Ace, Spades, true);
            var t := Table([[], [], [], [], [], [], []], [[ace], [], [], []], [], [], Idle);
            var p := Pointer(false, false, [], [true]);
            PointerDownAsWritten(t, p) == Crashed
            && PointerDown(t, p) == t.(foundation := t.foundation[0 := []], drag := Holding([ace], FromFoundation(0)))
  {
    var ace := Card(Ace, Spades, true);
    var t := Table([[], [], [], [], [], [], []], [[ace], [], [], []], [], [], Idle);
    var p := Pointer(false, false, [], [true]);
    assert TableauPick(t.tableau, p, 0).None?;
    assert FoundationPick(t.foundation, p, 0) == Some(0);
  }

  // ---------------------------------------------------------------- drop

  /** The first pile from index `from` on whose hit-rectangle holds the pointer
      and whose rule accepts the run. */
  function FirstFit(kind: Kind, piles: seq<seq<Card>>, hits: seq<bool>, moving: seq<Card>, from: nat)
    : (r: Option<nat>)
    requires |hits| == |piles| && from <= |piles|
    decreases |piles| - from
    ensures r.Some? ==> from <= r.value < |piles| && hits[r.value] && Accepts(kind, piles[r.value], moving)
    ensures r.Some? ==> forall k :: from <= k < r.value ==> !(hits[k] && Accepts(kind, piles[k], moving))
    ensures r.None? ==> forall k :: from <= k < |piles| ==> !(hits[k] && Accepts(kind, piles[k], moving))
  {
    if from == |piles| then None
    else if hits[from] && Accepts(kind, piles[from], moving) then Some(from)
    else FirstFit(kind, piles, hits, moving, from + 1)
  }

  /** After a successful drop, a tableau origin turns its new top up. */
  function Settle(t: Table, o: Origin): (r: Table)
    requires WellFormed(t) && OriginOk(o)
    ensures r.stock == t.stock && r.waste == t.waste && r.foundation == t.foundation && r.drag == t.drag
    ensures |r.tableau| == 7 && forall c :: 0 <= c < 7 ==> |r.tableau[c]| == |t.tableau[c]|
  {
    if o.FromTableau? then t.(tableau := t.tableau[o.col := Autoflipped(t.tableau[o.col])]) else t
  }

  /** A refused run goes back onto the pile it came from. */
  function ReturnTo(t: Table, m: seq<Card>, o: Origin): (r: Table)
    requires WellFormed(t) && OriginOk(o)
    ensures r.stock == t.stock && r.drag == t.drag
    ensures |r.tableau| == 7 && |r.foundation| == 4
    ensures !o.FromWaste? ==> r.waste == t.waste
    ensures forall c :: 0 <= c < 7 && o != FromTableau(c) ==> r.tableau[c] == t.tableau[c]
    ensures forall i :: 0 <= i < 4 && o != FromFoundation(i) ==> r.foundation[i] == t.foundation[i]
  {
    match o
    case FromWaste => t.(waste := t.waste + m)
    case FromTableau(c) => t.(tableau := t.tableau[c := t.tableau[c] + m])
    case FromFoundation(i) => t.(foundation := t.foundation[i := t.foundation[i] + m])
  }

  /** Pointer up: the foundations are tried first, then the tableau columns,
      each in order; the first pile that is hit and accepts takes the run.
      Otherwise the run goes back where it came from. */
  function Drop(t: Table, fHit: seq<bool>, tHit: seq<bool>): (r: Table)
    requires WellFormed(t) && |fHit| == 4 && |tHit| == 7
    ensures r.drag == Idle && r.stock == t.stock
    ensures t.drag == Idle ==> r == t
  {
    match t.drag
    case Idle => t
    case Holding(m, o) =>
      match FirstFit(Foundation, t.foundation, fHit, m, 0)
      case Some(i) => Settle(t.(foundation := t.foundation[i := t.foundation[i] + m], drag := Idle), o)
      case None =>
        match FirstFit(Tableau, t.tableau, tHit, m, 0)
        case Some(j) => Settle(t.(tableau := t.tableau[j := t.tableau[j] + m], drag := Idle), o)
        case None => ReturnTo(t.(drag := Idle), m, o)
  }

  /** Settling a column only turns a card over. */
  lemma SettleConserves(u: Table, o: Origin)
    requires WellFormed(u) && OriginOk(o)
    ensures AllIds(Settle(u, o)) == AllIds(u)
  {
    if o.FromTableau? {
      ReplaceSame(u.tableau, o.col, Autoflipped(u.tableau[o.col]));
    }
  }

  /** Dropping neither creates nor loses a card. */
  lemma DropConserves(t: Table, fHit: seq<bool>, tHit: seq<bool>)
    requires WellFormed(t) && |fHit| == 4 && |tHit| == 7
    ensures AllIds(Drop(t, fHit, tHit)) == AllIds(t)
  {
    match t.drag
    case Idle =>
    case Holding(m, o) =>
      match FirstFit(Foundation, t.foundation, fHit, m, 0)
      case Some(i) =>
        var u := t.(foundation := t.foundation[i := t.foundation[i] + m], drag := Idle);
        HandToFoundation(t, i);
        SettleConserves(u, o);
      case None =>
        match FirstFit(Tableau, t.tableau, tHit, m, 0)
        case Some(j) =>
          var u := t.(tableau := t.tableau[j := t.tableau[j] + m], drag := Idle);
          HandToTableau(t, j);
          SettleConserves(u, o);
        case None =>
          match o
          case FromWaste => HandToWaste(t);
          case FromTableau(c) => HandToTableau(t, c);
          case FromFoundation(i) => HandToFoundation(t, i);
  }

  /** Dropping keeps every invariant and ends the drag. */
  lemma DropPreserves(t: Table, fHit: seq<bool>, tHit: seq<bool>)
    requires Invariant(t) && |fHit| == 4 && |tHit| == 7
    ensures Invariant(Drop(t, fHit, tHit)) && Drop(t, fHit, tHit).drag == Idle
  {
    DropConserves(t, fHit, tHit);
    match t.drag
    case Idle =>
    case Holding(m, o) =>
      match FirstFit(Foundation, t.foundation, fHit, m, 0)
      case Some(i) =>
        FoundationAcceptKeepsRun(t.foundation[i], m);
        var u := t.(foundation := t.foundation[i := t.foundation[i] + m], drag := Idle);
        assert FoundationsOk(u.foundation);
        SettleKeeps(u, o, -1);
      case None =>
        match FirstFit(Tableau, t.tableau, tHit, m, 0)
        case Some(j) =>
          TableauAcceptKeepsShape(t.tableau[j], m);
          var u := t.(tableau := t.tableau[j := t.tableau[j] + m], drag := Idle);
          assert TableauOk(u.tableau);
          SettleKeeps(u, o, j);
        case None =>
          ReturnKeeps(t, m, o);
  }

  /** The step shared by both successful drops: the run has landed, and
      settling the origin restores the idle invariant. */
  lemma SettleKeeps(u: Table, o: Origin, landed: int)
    requires WellFormed(u) && OriginOk(o) && u.drag == Idle
    requires OneOfEach(AllIds(Settle(u, o)))
    requires FoundationsOk(u.foundation) && TableauOk(u.tableau)
    requires AllFaceDown(u.stock) && AllFaceUp(u.waste)
    requires forall c :: 0 <= c < 7 && (o != FromTableau(c) || c == landed) ==> Settled(u.tableau[c])
    ensures Invariant(Settle(u, o))
  {
    if o.FromTableau? {
      AutoflipSettles(u.tableau[o.col]);
    }
  }

  /** A refused run restores the invariant on its origin. */
  lemma ReturnKeeps(t: Table, m: seq<Card>, o: Origin)
    requires Invariant(t) && t.drag == Holding(m, o)
    requires OneOfEach(AllIds(ReturnTo(t.(drag := Idle), m, o)))
    ensures Invariant(ReturnTo(t.(drag := Idle), m, o))
  {
    var t' := ReturnTo(t.(drag := Idle), m, o);
    match o
    case FromWaste =>
      assert AllFaceUp(t.waste + m) by {
        assert forall k :: |t.waste| <= k < |t.waste + m| ==> (t.waste + m)[k] == m[k - |t.waste|];
      }
    case FromTableau(c) =>
      assert TableauOk(t'.tableau);
    case FromFoundation(i) =>
      assert FoundationsOk(t'.foundation);
  }

  /** A drop that no hit pile accepts puts the table back exactly as it was
      before the lift: the origin pile gets its own cards back, in order. */
  lemma FailedDropRestores(t: Table, src: Source, fHit: seq<bool>, tHit: seq<bool>)
    requires Invariant(t) && t.drag == Idle && |fHit| == 4 && |tHit| == 7
    requires Lift(t, src).drag.Holding? ==>
               && FirstFit(Foundation, Lift(t, src).foundation, fHit, Lift(t, src).drag.cards, 0).None?
               && FirstFit(Tableau, Lift(t, src).tableau, tHit, Lift(t, src).drag.cards, 0).None?
    ensures Drop(Lift(t, src), fHit, tHit) == t
  {
    var u := Lift(t, src);
    if u.drag.Holding? {
      RefusedDropReturns(u, fHit, tHit);
      ReturnUndoesLift(t, src);
    }
  }

  /** Putting a lifted run back on its origin undoes the lift. */
  lemma ReturnUndoesLift(t: Table, src: Source)
    requires WellFormed(t) && t.drag == Idle && Lift(t, src).drag.Holding?
    ensures var u := Lift(t, src); ReturnTo(u.(drag := Idle), u.drag.cards, u.drag.origin) == t
  {
    match src
    case WasteTop =>
      var n := |t.waste| - 1;
      assert t.waste[..n] + t.waste[n..] == t.waste;
    case TableauCard(c, pos) =>
      var p := t.tableau[c];
      assert p[..pos] + p[pos..] == p;
      assert t.tableau[c := p[..pos]][c := p[..pos] + p[pos..]] == t.tableau;
    case FoundationTop(i) =>
      var f := t.foundation[i];
      var n := |f| - 1;
      assert f[..n] + f[n..] == f;
      assert t.foundation[i := f[..n]][i := f[..n] + f[n..]] == t.foundation;
  }

  /** A drop no hit pile accepts is the run put back on its origin. */
  lemma RefusedDropReturns(u: Table, fHit: seq<bool>, tHit: seq<bool>)
    requires WellFormed(u) && |fHit| == 4 && |tHit| == 7 && u.drag.Holding?
    requires FirstFit(Foundation, u.foundation, fHit, u.drag.cards, 0).None?
    requires FirstFit(Tableau, u.tableau, tHit, u.drag.cards, 0).None?
    ensures Drop(u, fHit, tHit) == ReturnTo(u.(drag := Idle), u.drag.cards, u.drag.origin)
  {
  }

  // ---------------------------------------------------------------- win

  /** The game is won when the foundations hold 52 cards between them. */
  function HasWon(foundation: seq<seq<Card>>): (r: bool)
    ensures |foundation| == 4 ==>
              (r <==> |foundation[0]| + |foundation[1]| + |foundation[2]| + |foundation[3]| == 52)
    ensures |foundation| == 4 && (forall i :: 0 <= i < 4 ==> |foundation[i]| == 13) ==> r
  {
    if |foundation| == 4 then
      TotalOfFour(foundation);
      Total(foundation) == 52
    else Total(foundation) == 52
  }

  /** On a reachable table the game is won exactly when every foundation is a
      complete suit from Ace to King, and then no card is anywhere else. */
  lemma WinMeansCompleteFoundations(t: Table)
    requires Invariant(t)
    ensures HasWon(t.foundation) <==> forall i :: 0 <= i < 4 ==> |t.foundation[i]| == 13
    ensures HasWon(t.foundation) ==>
              && (forall i, k :: 0 <= i < 4 && 0 <= k < 13 ==>
                    t.foundation[i][k] == Card(RANKS[k], t.foundation[i][0].suit, true))
              && (forall c :: 0 <= c < 7 ==> t.tableau[c] == [])
              && t.stock == [] && t.waste == [] && Held(t.drag) == []
  {
    var f: seq<seq<Card>> := t.foundation;
    forall i: int | 0 <= i < 4
      ensures |f[i]| <= 13
      ensures |f[i]| == 13 ==> forall k :: 0 <= k < 13 ==> f[i][k] == Card(RANKS[k], f[i][0].suit, true)
    {
      FoundationBound(f[i]);
    }
    TotalOfFour(f);
    OneOfEachIsFullDeck(AllIds(t));
    CardCount(t);
    if HasWon(f) {
      EmptyTotal(t.tableau);
    }
  }

  /** The cards on a table: every pile and the hand. */
  lemma CardCount(t: Table)
    ensures |AllIds(t)| == Total(t.tableau) + Total(t.foundation) + |t.stock| + |t.waste| + |Held(t.drag)|
  {
    IdsOfPilesSize(t.tableau);
    IdsOfPilesSize(t.foundation);
    IdsAppend(t.stock, []);
    IdsAppend(t.waste, []);
    IdsAppend(Held(t.drag), []);
  }

  lemma TotalOfFour(f: seq<seq<Card>>)
    requires |f| == 4
    ensures Total(f) == |f[0]| + |f[1]| + |f[2]| + |f[3]|
  {
    assert f[..3][..2] == f[..2] && f[..2][..1] == f[..1] && f[..1][..0] == [];
    assert Total(f[..1]) == |f[0]|;
    assert Total(f[..2]) == Total(f[..1]) + |f[1]|;
    assert Total(f[..3]) == Total(f[..2]) + |f[2]|;
    assert f[..4] == f;
  }

  lemma {:induction false} EmptyTotal(ps: seq<seq<Card>>)
    requires Total(ps) == 0
    ensures forall i :: 0 <= i < |ps| ==> ps[i] == []
  {
    if ps != [] {
      EmptyTotal(ps[..|ps| - 1]);
      assert forall i :: 0 <= i < |ps| - 1 ==> ps[..|ps| - 1][i] == ps[i];
    }
  }
}
