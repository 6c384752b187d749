/** Piles: ordered sequences of cards whose last element is the top. The pure
    functions say what each pile operation does to a sequence; the class Pile
    and the two free methods are the operations that update a pile in place. */
module Piles {
  import opened Cards

  /** The four kinds of pile; the kind decides which placement rule applies. */
  datatype Kind = Stock | Waste | Foundation | Tableau

  /** The top card, or None for an empty pile. */
  function Top(s: seq<Card>): (top: Option<Card>)
    ensures top.None? <==> s == []
    ensures top.Some? ==> top.value in s && top.value == s[|s| - 1]
  {
    if s == [] then None else Some(s[|s| - 1])
  }

  /** Position of the first occurrence of c, as a linear search finds it. */
  function IndexOf(s: seq<Card>, c: Card): (k: nat)
    requires c in s
    ensures k < |s| && s[k] == c && c !in s[..k]
  {
    if s[0] == c then 0 else 1 + IndexOf(s[1..], c)
  }

  /** Lifting from c: the part of the pile that stays and the run that moves,
      which starts at the first occurrence of c and runs to the top. */
  function Split(s: seq<Card>, c: Card): (r: (seq<Card>, seq<Card>))
    ensures r.0 + r.1 == s
    ensures c !in s ==> r.1 == []
    ensures c in s ==> r.1 != [] && r.1[0] == c && c !in r.0
  {
    if c !in s then (s, [])
    else
      var k := IndexOf(s, c);
      assert s[..k] + s[k..] == s;
      (s[..k], s[k..])
  }

  /** On a pile of distinct cards, lifting from the card at pos takes exactly
      the cards from pos to the top. */
  lemma SplitAtPosition(s: seq<Card>, pos: nat)
    requires pos < |s| && DistinctIds(s)
    ensures Split(s, s[pos]) == (s[..pos], s[pos..])
  {
    assert IndexOf(s, s[pos]) == pos;
  }

  /** The pile with its top card turned face up. */
  function TurnedUp(s: seq<Card>): (r: seq<Card>)
    requires s != []
    ensures |r| == |s| && r[|s| - 1].faceUp
    ensures Id(r[|s| - 1]) == Id(s[|s| - 1])
    ensures forall i :: 0 <= i < |s| - 1 ==> r[i] == s[i]
  {
    s[..|s| - 1] + [s[|s| - 1].(faceUp := true)]
  }

  /** The tableau autoflip: turn the top up when it is face down. */
  function Autoflipped(s: seq<Card>): (r: seq<Card>)
    ensures |r| == |s| && Ids(r) == Ids(s)
    ensures forall i :: 0 <= i < |s| - 1 ==> r[i] == s[i]
    ensures s != [] ==> r[|s| - 1] == s[|s| - 1].(faceUp := true)
  {
    if s != [] && !s[|s| - 1].faceUp then
      var t := TurnedUp(s);
      IdsIgnoreFaces(t, s);
      t
    else s
  }

  function Reverse(s: seq<Card>): (r: seq<Card>)
    ensures |r| == |s|
    ensures forall i :: 0 <= i < |s| ==> r[i] == s[|s| - 1 - i]
  {
    seq(|s|, i requires 0 <= i < |s| => s[|s| - 1 - i])
  }

  function FaceUpAll(s: seq<Card>): (r: seq<Card>)
    ensures |r| == |s|
    ensures forall i :: 0 <= i < |s| ==> r[i] == s[i].(faceUp := true)
  {
    seq(|s|, i requires 0 <= i < |s| => s[i].(faceUp := true))
  }

  function FaceDownAll(s: seq<Card>): (r: seq<Card>)
    ensures |r| == |s|
    ensures forall i :: 0 <= i < |s| ==> r[i] == s[i].(faceUp := false)
  {
    seq(|s|, i requires 0 <= i < |s| => s[i].(faceUp := false))
  }

  ghost predicate AllFaceUp(s: seq<Card>)
  {
    forall i :: 0 <= i < |s| ==> s[i].faceUp
  }

  ghost predicate AllFaceDown(s: seq<Card>)
  {
    forall i :: 0 <= i < |s| ==> !s[i].faceUp
  }

  /** Reversing a pile keeps its cards. */
  lemma {:induction false} IdsReverse(s: seq<Card>)
    ensures Ids(Reverse(s)) == Ids(s)
  {
    if s != [] {
      IdsReverse(s[1..]);
      assert Reverse(s) == Reverse(s[1..]) + [s[0]];
      assert s == [s[0]] + s[1..];
      IdsAppend(Reverse(s[1..]), [s[0]]);
      IdsAppend([s[0]], s[1..]);
    }
  }

  /** One stock click's worth of one card: pop the stock top, turn it up,
      push it onto the waste. */
  function DrawOne(stock: seq<Card>, waste: seq<Card>): (r: (seq<Card>, seq<Card>))
    requires stock != []
  {
    (stock[..|stock| - 1], waste + [stock[|stock| - 1].(faceUp := true)])
  }

  /** k cards drawn one after another: the k top cards leave the stock and
      land on the waste face up, the stock top first. */
  function DrawTimes(stock: seq<Card>, waste: seq<Card>, k: nat): (r: (seq<Card>, seq<Card>))
    requires k <= |stock|
    ensures r.0 == stock[..|stock| - k]
    ensures r.1 == waste + FaceUpAll(Reverse(stock[|stock| - k..]))
  {
    if k == 0 then (stock, waste)
    else
      var prev := DrawTimes(stock, waste, k - 1);
      var n := |stock|;
      assert prev.0[|prev.0| - 1] == stock[n - k];
      assert FaceUpAll(Reverse(stock[n - k..])) ==
             FaceUpAll(Reverse(stock[n - (k - 1)..])) + [stock[n - k].(faceUp := true)];
      DrawOne(prev.0, prev.1)
  }

  /** Drawing moves cards from the stock to the waste and neither creates nor loses any. */
  lemma DrawConserves(stock: seq<Card>, waste: seq<Card>, k: nat)
    requires k <= |stock|
    ensures Ids(DrawTimes(stock, waste, k).0) + Ids(DrawTimes(stock, waste, k).1) == Ids(stock) + Ids(waste)
  {
    var n := |stock|;
    var kept := stock[..n - k];
    var drawn := stock[n - k..];
    var up := FaceUpAll(Reverse(drawn));
    assert kept + drawn == stock;
    IdsAppend(kept, drawn);
    IdsReverse(drawn);
    IdsIgnoreFaces(up, Reverse(drawn));
    IdsAppend(waste, up);
    calc {
      Ids(kept) + Ids(waste + up);
      Ids(kept) + (Ids(waste) + Ids(drawn));
      (Ids(kept) + Ids(drawn)) + Ids(waste);
      Ids(stock) + Ids(waste);
    }
  }

  /** Drawing keeps the stock face down and the waste face up. */
  lemma DrawKeepsFaces(stock: seq<Card>, waste: seq<Card>, k: nat)
    requires k <= |stock| && AllFaceDown(stock) && AllFaceUp(waste)
    ensures AllFaceDown(DrawTimes(stock, waste, k).0) && AllFaceUp(DrawTimes(stock, waste, k).1)
  {
    var up := FaceUpAll(Reverse(stock[|stock| - k..]));
    var w := waste + up;
    forall i | 0 <= i < |w| ensures w[i].faceUp {
      if i >= |waste| {
        assert w[i] == up[i - |waste|];
      }
    }
  }

  /** Recycling: the waste goes back onto the stock reversed and face down,
      and the waste is left empty. */
  function Recycled(stock: seq<Card>, waste: seq<Card>): (r: (seq<Card>, seq<Card>))
    ensures r.1 == [] && |r.0| == |stock| + |waste|
    ensures Ids(r.0) == Ids(stock) + Ids(waste)
    ensures AllFaceDown(stock) ==> AllFaceDown(r.0)
  {
    var back := FaceDownAll(Reverse(waste));
    IdsIgnoreFaces(back, Reverse(waste));
    IdsReverse(waste);
    IdsAppend(stock, back);
    (stock + back, [])
  }

  /** Drawing the whole stock and then recycling onto the emptied stock puts
      the drawn cards back in their original order, face down, with the cards
      the waste held before stacked above them; from an empty waste the stock
      is restored exactly and the waste is empty again. */
  lemma DrawAllThenRecycle(stock: seq<Card>, waste: seq<Card>)
    requires AllFaceDown(stock)
    ensures DrawTimes(stock, waste, |stock|).0 == []
    ensures Recycled([], DrawTimes(stock, waste, |stock|).1).0
            == stock + FaceDownAll(Reverse(waste))
    ensures Recycled([], DrawTimes(stock, [], |stock|).1) == (stock, [])
  {
    var drawn := FaceUpAll(Reverse(stock));
    assert stock[0..] == stock;
    assert DrawTimes(stock, waste, |stock|).1 == waste + drawn;
    assert DrawTimes(stock, [], |stock|).1 == [] + drawn;
    assert [] + drawn == drawn;
    UndoDraw(stock);
    RecycleAppend(waste, drawn);
    assert [] + FaceDownAll(Reverse(drawn)) == stock;
  }

  /** Turning a face-down pile over twice, face up and back down, restores it. */
  lemma UndoDraw(s: seq<Card>)
    requires AllFaceDown(s)
    ensures FaceDownAll(Reverse(FaceUpAll(Reverse(s)))) == s
  {
    var r := FaceDownAll(Reverse(FaceUpAll(Reverse(s))));
    forall i | 0 <= i < |s| ensures r[i] == s[i] {
      assert Reverse(FaceUpAll(Reverse(s)))[i] == s[i].(faceUp := true);
    }
  }

  /** Recycling a waste made of two parts puts the upper part lowest. */
  lemma RecycleAppend(a: seq<Card>, b: seq<Card>)
    ensures FaceDownAll(Reverse(a + b)) == FaceDownAll(Reverse(b)) + FaceDownAll(Reverse(a))
  {
    var l := FaceDownAll(Reverse(a + b));
    var r := FaceDownAll(Reverse(b)) + FaceDownAll(Reverse(a));
    forall i | 0 <= i < |l| ensures l[i] == r[i] {
      if i < |b| {
        assert l[i] == b[|b| - 1 - i].(faceUp := false);
      } else {
        assert l[i] == a[|a| + |b| - 1 - i].(faceUp := false);
      }
    }
  }

  /** A pile of the game: its kind never changes, its cards do. */
  class Pile {
    const kind: Kind
    var cards: seq<Card>

    constructor (kind: Kind)
      ensures this.kind == kind && cards == []
    {
      this.kind := kind;
      cards := [];
    }

    /** Push the cards in the order given; no placement rule is checked here. */
    method AddCards(moving: seq<Card>)
      modifies this
      ensures cards == old(cards) + moving
    {
      for i := 0 to |moving|
        invariant cards == old(cards) + moving[..i]
      {
        cards := cards + [moving[i]];
      }
    }

    /** Detach and return the run from card to the top; nothing when card is absent. */
    method RemoveFrom(card: Card) returns (moving: seq<Card>)
      modifies this
      ensures (cards, moving) == Split(old(cards), card)
    {
      if card !in cards {
        return [];
      }
      var idx := IndexOf(cards, card);
      moving := cards[idx..];
      cards := cards[..idx];
    }

    /** Turn the top card face up. */
    method TurnTopUp()
      requires cards != []
      modifies this
      ensures cards == TurnedUp(old(cards))
    {
      cards := cards[..|cards| - 1] + [Top(cards).value.(faceUp := true)];
    }
  }

  /** Turn a tableau pile's top up if the pile is non-empty and its top is face down. */
  method TryAutoflipTableauTop(pile: Pile)
    modifies pile
    ensures pile.cards == Autoflipped(old(pile.cards))
  {
    if pile.cards != [] && !Top(pile.cards).value.faceUp {
      pile.TurnTopUp();
    }
  }

  /** Move the waste back onto the stock, reversed and face down. */
  method RecycleWasteToStock(stock: Pile, waste: Pile)
    requires stock != waste
    modifies stock, waste
    ensures (stock.cards, waste.cards) == Recycled(old(stock.cards), old(waste.cards))
  {
    var moving := Reverse(waste.cards);
    waste.cards := [];
    for i := 0 to |moving|
      invariant waste.cards == []
      invariant stock.cards == old(stock.cards) + FaceDownAll(moving[..i])
    {
      var c := moving[i].(faceUp := false);
      stock.cards := stock.cards + [c];
    }
    assert moving[..|moving|] == moving;
  }
}
