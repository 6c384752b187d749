/** The placement rules: which runs may be lifted and moved together, what a
    tableau column and a foundation accept, and the shapes of those piles that
    the rules keep. */
module Rules {
  import opened Cards
  import opened Piles

  /** b may lie on a: one value lower and of the other colour. */
  predicate Builds(a: Card, b: Card)
  {
    CardValue(a) == CardValue(b) + 1 && ColorOf(a) != ColorOf(b)
  }

  /** A run that may move as a group: non-empty, all face up, each card one
      lower than and of the other colour from the card it lies on. */
  predicate ValidRun(run: seq<Card>): (r: bool)
    ensures r ==> run != [] && CardValue(run[0]) - CardValue(run[|run| - 1]) == |run| - 1 && |run| <= 13
  {
    && run != []
    && (forall i :: 0 <= i < |run| ==> run[i].faceUp)
    && (Descends(run); forall i :: 0 <= i < |run| - 1 ==> Builds(run[i], run[i + 1]))
  }

  /** Cards that each build on the one before fall one value per card. */
  lemma {:induction false} Descends(run: seq<Card>)
    requires run != []
    ensures (forall i :: 0 <= i < |run| - 1 ==> Builds(run[i], run[i + 1])) ==>
              CardValue(run[0]) - CardValue(run[|run| - 1]) == |run| - 1
  {
    if |run| > 1 && forall i :: 0 <= i < |run| - 1 ==> Builds(run[i], run[i + 1]) {
      Descends(run[1..]);
      assert forall i :: 0 <= i < |run[1..]| - 1 ==> Builds(run[1..][i], run[1..][i + 1]);
    }
  }

  /** The run check as the game performs it: first every card's face, then
      every adjacent pair. */
  method IsValidStack(cards: seq<Card>) returns (ok: bool)
    ensures ok <==> ValidRun(cards)
  {
    if cards == [] {
      return false;
    }
    for i := 0 to |cards|
      invariant forall k :: 0 <= k < i ==> cards[k].faceUp
    {
      if !cards[i].faceUp {
        return false;
      }
    }
    for i := 0 to |cards| - 1
      invariant forall k :: 0 <= k < i ==> Builds(cards[k], cards[k + 1])
    {
      var a, b := cards[i], cards[i + 1];
      if !(CardValue(a) == CardValue(b) + 1 && ColorOf(a) != ColorOf(b)) {
        return false;
      }
    }
    return true;
  }

  /** The tableau rule: a valid run; onto an empty column only a King leads,
      otherwise the top must be face up and take the run's first card. */
  function TableauAccepts(pile: seq<Card>, moving: seq<Card>): (r: bool)
    ensures r ==> ValidRun(moving) && (CardValue(moving[0]) == 13 <==> pile == [])
    ensures r && pile != [] ==> ValidRun([pile[|pile| - 1]] + moving)
  {
    if moving == [] then false
    else if !ValidRun(moving) then false
    else if pile == [] then CardValue(moving[0]) == 13
    else
      var top := Top(pile).value;
      ExtendRun(top, moving);
      top.faceUp && CardValue(top) == CardValue(moving[0]) + 1 && ColorOf(top) != ColorOf(moving[0])
  }

  /** The foundation rule: exactly one face-up card; an Ace onto an empty
      foundation, otherwise the next value of the top card's suit. */
  function FoundationAccepts(pile: seq<Card>, moving: seq<Card>): (r: bool)
    ensures r ==> |moving| == 1 && moving[0].faceUp && (moving[0].rank == Ace <==> pile == [])
  {
    if |moving| != 1 then false
    else
      var c := moving[0];
      if !c.faceUp then false
      else if pile == [] then CardValue(c) == 1
      else
        var top := Top(pile).value;
        c.suit == top.suit && CardValue(c) == CardValue(top) + 1
  }

  /** A face-up card that a run builds on heads a longer run. */
  lemma ExtendRun(top: Card, moving: seq<Card>)
    requires moving != []
    ensures ValidRun(moving) && top.faceUp && Builds(top, moving[0]) ==> ValidRun([top] + moving)
  {
    if ValidRun(moving) && top.faceUp && Builds(top, moving[0]) {
      var run := [top] + moving;
      forall i | 0 <= i < |run| - 1 ensures Builds(run[i], run[i + 1]) {
        if i > 0 {
          assert run[i] == moving[i - 1] && run[i + 1] == moving[i];
        }
      }
    }
  }

  /** A tableau column's check of a run dropped on it. */
  method StacksCanAccept(pile: Pile, moving: seq<Card>) returns (ok: bool)
    ensures ok == TableauAccepts(pile.cards, moving)
  {
    if moving == [] {
      return false;
    }
    var head := moving[0];
    var valid := IsValidStack(moving);
    if !valid {
      return false;
    }
    if pile.cards == [] {
      return CardValue(head) == 13;
    }
    var top := Top(pile.cards).value;
    return top.faceUp && CardValue(top) == CardValue(head) + 1 && ColorOf(top) != ColorOf(head);
  }

  /** A foundation's check of a run dropped on it. */
  method AcesCanAccept(pile: Pile, moving: seq<Card>) returns (ok: bool)
    ensures ok == FoundationAccepts(pile.cards, moving)
  {
    if |moving| != 1 {
      return false;
    }
    var c := moving[0];
    if !c.faceUp {
      return false;
    }
    if pile.cards == [] {
      return CardValue(c) == 1;
    }
    var top := Top(pile.cards).value;
    return c.suit == top.suit && CardValue(c) == CardValue(top) + 1;
  }

  /** Placement rule by pile kind; stock and waste are never drop targets. */
  function Accepts(kind: Kind, pile: seq<Card>, moving: seq<Card>): bool
  {
    match kind
    case Tableau => TableauAccepts(pile, moving)
    case Foundation => FoundationAccepts(pile, moving)
    case _ => false
  }

  /** A foundation: face up, one suit, Ace, 2, 3, ... with no gap. */
  ghost predicate FoundationRun(f: seq<Card>)
  {
    forall i :: 0 <= i < |f| ==> f[i].faceUp && CardValue(f[i]) == i + 1 && f[i].suit == f[0].suit
  }

  /** A tableau column: face-down cards below, and above them a face-up part in
      which each card builds on the one below. */
  ghost predicate TableauShape(s: seq<Card>)
  {
    && (forall i, j :: 0 <= i < j < |s| && s[i].faceUp ==> s[j].faceUp)
    && (forall i :: 0 <= i < |s| - 1 && s[i].faceUp ==> Builds(s[i], s[i + 1]))
  }

  /** A column whose top, if any, is face up. */
  ghost predicate Settled(s: seq<Card>)
  {
    s == [] || s[|s| - 1].faceUp
  }

  /** On a well-formed foundation the rule takes exactly the next card of the
      suit (an Ace on an empty one), and the foundation stays well formed. */
  lemma FoundationAcceptKeepsRun(f: seq<Card>, m: seq<Card>)
    requires FoundationRun(f)
    ensures FoundationAccepts(f, m) <==>
              |m| == 1 && m[0].faceUp && CardValue(m[0]) == |f| + 1 && (f != [] ==> m[0].suit == f[0].suit)
    ensures FoundationAccepts(f, m) ==> FoundationRun(f + m)
  {
  }

  /** Removing cards from the top of a foundation leaves a foundation. */
  lemma FoundationRunPrefix(f: seq<Card>, m: seq<Card>)
    requires FoundationRun(f + m)
    ensures FoundationRun(f)
  {
    forall i | 0 <= i < |f| ensures f[i].faceUp && CardValue(f[i]) == i + 1 && f[i].suit == f[0].suit {
      assert (f + m)[i] == f[i] && (f + m)[0] == f[0];
    }
  }

  /** A foundation holds at most 13 cards, and one with 13 is the whole suit from Ace to King. */
  lemma FoundationBound(f: seq<Card>)
    requires FoundationRun(f)
    ensures |f| <= 13
    ensures |f| == 13 ==> forall i :: 0 <= i < 13 ==> f[i] == Card(RANKS[i], f[0].suit, true)
  {
    assert |f| > 13 ==> CardValue(f[13]) == 14;
    RanksInValueOrder();
  }

  /** What a tableau accepts keeps the column's shape and leaves its top face up. */
  lemma TableauAcceptKeepsShape(p: seq<Card>, m: seq<Card>)
    requires TableauShape(p)
    requires TableauAccepts(p, m)
    ensures ValidRun(m)
    ensures p == [] ==> m[0].rank == King
    ensures p != [] ==> p[|p| - 1].faceUp && Builds(p[|p| - 1], m[0])
    ensures TableauShape(p + m) && Settled(p + m)
  {
    var s := p + m;
    forall i, j | 0 <= i < j < |s| && s[i].faceUp ensures s[j].faceUp {
      if j < |p| {
        assert s[i] == p[i] && s[j] == p[j];
      } else {
        assert s[j] == m[j - |p|];
      }
    }
    forall i | 0 <= i < |s| - 1 && s[i].faceUp ensures Builds(s[i], s[i + 1]) {
      if i + 1 < |p| {
        assert s[i] == p[i] && s[i + 1] == p[i + 1];
      } else if i + 1 == |p| {
        assert s[i] == p[|p| - 1] && s[i + 1] == m[0];
      } else {
        assert s[i] == m[i - |p|] && s[i + 1] == m[i - |p| + 1];
      }
    }
  }

  /** Removing cards from the top of a column leaves a well-shaped column. */
  lemma TableauShapePrefix(p: seq<Card>, m: seq<Card>)
    requires TableauShape(p + m)
    ensures TableauShape(p)
  {
    var s := p + m;
    assert forall i :: 0 <= i < |p| ==> s[i] == p[i];
  }

  /** In a well-shaped column, the cards from any face-up card to the top form a valid run. */
  lemma TableauLiftIsRun(p: seq<Card>, pos: nat)
    requires TableauShape(p)
    requires pos < |p| && p[pos].faceUp
    ensures ValidRun(p[pos..])
  {
    var r := p[pos..];
    forall i | 0 <= i < |r| ensures r[i].faceUp {
      if i > 0 {
        assert r[i] == p[pos + i];
      }
    }
    forall i | 0 <= i < |r| - 1 ensures Builds(r[i], r[i + 1]) {
      assert r[i] == p[pos + i] && r[i + 1] == p[pos + i + 1];
    }
  }

  /** Autoflip settles a well-shaped column, and a settled column is left alone. */
  lemma AutoflipSettles(p: seq<Card>)
    requires TableauShape(p)
    ensures TableauShape(Autoflipped(p)) && Settled(Autoflipped(p))
    ensures Settled(p) ==> Autoflipped(p) == p
  {
    var r := Autoflipped(p);
    if p != [] && !p[|p| - 1].faceUp {
      assert forall i :: 0 <= i < |p| - 1 ==> !p[i].faceUp;
      assert forall i :: 0 <= i < |r| - 1 ==> !r[i].faceUp;
    } else {
      assert r == p;
    }
  }

  /** The legality cases the game is expected to decide. */
  lemma AcceptanceExamples()
    ensures TableauAccepts([], [Card(King, Spades, true)])
    ensures !TableauAccepts([], [Card(Queen, Spades, true)])
    ensures TableauAccepts([Card(Pip(10), Clubs, true)], [Card(Pip(9), Hearts, true)])
    ensures !TableauAccepts([Card(Pip(10), Diamonds, true)], [Card(Pip(9), Hearts, true)])
    ensures !TableauAccepts([Card(Pip(10), Clubs, false)], [Card(Pip(9), Hearts, true)])
    ensures FoundationAccepts([], [Card(Ace, Spades, true)])
    ensures !FoundationAccepts([], [Card(Pip(2), Spades, true)])
    ensures FoundationAccepts([Card(Ace, Spades, true)], [Card(Pip(2), Spades, true)])
    ensures !FoundationAccepts([Card(Ace, Spades, true)], [Card(Pip(2), Hearts, true)])
    ensures !ValidRun([Card(Pip(9), Hearts, true), Card(Pip(8), Diamonds, true)])
    ensures !ValidRun([Card(Pip(9), Hearts, true), Card(Pip(8), Spades, false)])
  {
    var sameColour := [Card(Pip(9), Hearts, true), Card(Pip(8), Diamonds, true)];
    assert !Builds(sameColour[0], sameColour[1]);
    var faceDown := [Card(Pip(9), Hearts, true), Card(Pip(8), Spades, false)];
    assert !faceDown[1].faceUp;
  }
}
