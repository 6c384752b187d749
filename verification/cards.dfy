/** Playing cards: identity (rank, suit), the mutable face-up flag, derived
    value and colour, and the 52-card deck the game is dealt from. */
module Cards {

  datatype Option<T> = None | Some(value: T)

  datatype Suit = Hearts | Diamonds | Clubs | Spades

  datatype Color = Red | Black

  /** The numeral ranks '2' .. '10'. */
  type PipCount = n: int | 2 <= n <= 10 witness 2

  datatype Rank = Ace | Pip(pips: PipCount) | Jack | Queen | King

  /** A card is its identity plus the face-up flag, the one field the game flips. */
  datatype Card = Card(rank: Rank, suit: Suit, faceUp: bool)

  /** What stays the same about a card for the whole session. */
  datatype CardId = CardId(rank: Rank, suit: Suit)

  const RANKS: seq<Rank> := [Ace, Pip(2), Pip(3), Pip(4), Pip(5), Pip(6), Pip(7),
                             Pip(8), Pip(9), Pip(10), Jack, Queen, King]

  const SUITS: seq<Suit> := [Hearts, Diamonds, Clubs, Spades]

  /** Ace counts 1, the numerals their own number, Jack 11, Queen 12, King 13. */
  function Value(r: Rank): (v: int)
    ensures 1 <= v <= 13
    ensures v == 1 <==> r == Ace
    ensures v == 13 <==> r == King
  {
    match r
    case Ace => 1
    case Jack => 11
    case Queen => 12
    case King => 13
    case Pip(n) => n
  }

  /** The value of a card; it does not depend on the face-up flag. */
  function CardValue(c: Card): int
  {
    Value(c.rank)
  }

  /** Hearts and diamonds are red, every other suit black. */
  function ColorOf(c: Card): (color: Color)
    ensures color == Red <==> c.suit in {Hearts, Diamonds}
  {
    if c.suit == Hearts || c.suit == Diamonds then Red else Black
  }

  /** RANKS lists the ranks in value order, and value determines the rank. */
  lemma RanksInValueOrder()
    ensures |RANKS| == 13
    ensures forall i :: 0 <= i < 13 ==> Value(RANKS[i]) == i + 1
    ensures forall r1: Rank, r2: Rank :: Value(r1) == Value(r2) ==> r1 == r2
  {
  }

  function Id(c: Card): CardId
  {
    CardId(c.rank, c.suit)
  }

  function IdSeq(s: seq<Card>): (ids: seq<CardId>)
    ensures |ids| == |s|
    ensures forall i :: 0 <= i < |s| ==> ids[i] == Id(s[i])
  {
    seq(|s|, i requires 0 <= i < |s| => Id(s[i]))
  }

  /** The identities of a sequence of cards, as a multiset. */
  function Ids(s: seq<Card>): multiset<CardId>
  {
    multiset(IdSeq(s))
  }

  lemma IdSeqAppend(a: seq<Card>, b: seq<Card>)
    ensures IdSeq(a + b) == IdSeq(a) + IdSeq(b)
  {
    forall i | 0 <= i < |a| + |b| ensures IdSeq(a + b)[i] == (IdSeq(a) + IdSeq(b))[i] {
      if i >= |a| {
        assert (a + b)[i] == b[i - |a|];
      }
    }
  }

  /** Splitting or joining piles neither creates nor loses a card. */
  lemma IdsAppend(a: seq<Card>, b: seq<Card>)
    ensures Ids(a + b) == Ids(a) + Ids(b)
    ensures |Ids(a)| == |a|
  {
    IdSeqAppend(a, b);
  }

  /** Two sequences that differ only in face-up flags hold the same cards. */
  lemma IdsIgnoreFaces(a: seq<Card>, b: seq<Card>)
    requires |a| == |b|
    requires forall i :: 0 <= i < |a| ==> Id(a[i]) == Id(b[i])
    ensures Ids(a) == Ids(b)
  {
    assert IdSeq(a) == IdSeq(b);
  }

  /** The deck as built before shuffling: every suit, and within it every rank, all face down. */
  function FullDeck(): (deck: seq<Card>)
    ensures |deck| == 52
    ensures forall i :: 0 <= i < 52 ==> !deck[i].faceUp
  {
    seq(52, i requires 0 <= i < 52 => Card(RANKS[i % 13], SUITS[i / 13], false))
  }

  /** No two positions of s hold the same card identity. */
  ghost predicate DistinctIds(s: seq<Card>)
  {
    forall i, j :: 0 <= i < j < |s| ==> Id(s[i]) != Id(s[j])
  }

  /** The deck holds 52 different cards, and every card there is. */
  lemma FullDeckIsComplete()
    ensures DistinctIds(FullDeck())
    ensures forall id: CardId :: id in Ids(FullDeck())
  {
    var d := FullDeck();
    forall i, j | 0 <= i < j < 52
      ensures Id(d[i]) != Id(d[j])
    {
      assert forall k :: 0 <= k < 4 ==> SuitIndex(SUITS[k]) == k;
      RanksInValueOrder();
      if i / 13 == j / 13 {
        assert i % 13 != j % 13;
        assert RankIndex(d[i].rank) != RankIndex(d[j].rank);
      } else {
        assert SuitIndex(d[i].suit) != SuitIndex(d[j].suit);
      }
    }
    forall id: CardId
      ensures id in Ids(d)
    {
      var r := RankIndex(id.rank);
      var s := SuitIndex(id.suit);
      var k := s * 13 + r;
      assert k / 13 == s && k % 13 == r;
      assert IdSeq(d)[k] == id;
    }
  }

  /** How many times a card identity occurs. */
  function Copies(ids: multiset<CardId>, id: CardId): nat
  {
    ids[id]
  }

  /** Every card identity occurs exactly once: a complete deck, in some order. */
  ghost predicate OneOfEach(ids: multiset<CardId>)
  {
    forall id :: Copies(ids, id) == 1
  }

  /** One of each card is exactly the cards of the full deck, 52 of them. */
  lemma OneOfEachIsFullDeck(ids: multiset<CardId>)
    ensures OneOfEach(ids) <==> ids == Ids(FullDeck())
    ensures OneOfEach(ids) ==> |ids| == 52
  {
    var full := Ids(FullDeck());
    FullDeckIsComplete();
    DistinctIdsCounts(FullDeck());
    IdsAppend(FullDeck(), []);
    assert OneOfEach(full) by {
      forall id ensures Copies(full, id) == 1 {
        assert id in full;
      }
    }
    if OneOfEach(ids) {
      forall id ensures ids[id] == full[id] {
        assert Copies(ids, id) == 1 && Copies(full, id) == 1;
      }
      assert ids == full;
    }
  }

  /** Cards drawn from one of each card are all different. */
  lemma DistinctWithin(s: seq<Card>, ids: multiset<CardId>)
    requires OneOfEach(ids)
    requires forall id :: Ids(s)[id] <= ids[id]
    ensures DistinctIds(s)
  {
    forall id ensures Ids(s)[id] <= 1 {
      assert Copies(ids, id) == 1;
    }
    DistinctIdsCounts(s);
  }

  /** A sequence of cards holds one of each card exactly when it is a
      reordering of the full deck; it then has 52 cards, all different. */
  lemma ShuffleOfFullDeck(s: seq<Card>)
    ensures OneOfEach(Ids(s)) <==> Ids(s) == Ids(FullDeck())
    ensures OneOfEach(Ids(s)) ==> |s| == 52 && DistinctIds(s)
  {
    OneOfEachIsFullDeck(Ids(s));
    IdsAppend(s, []);
    if OneOfEach(Ids(s)) {
      DistinctWithin(s, Ids(s));
    }
  }

  function RankIndex(r: Rank): (k: nat)
    ensures k < 13 && RANKS[k] == r
  {
    Value(r) - 1
  }

  function SuitIndex(s: Suit): (k: nat)
    ensures k < 4 && SUITS[k] == s
  {
    match s
    case Hearts => 0
    case Diamonds => 1
    case Clubs => 2
    case Spades => 3
  }

  /** Distinct identities are exactly multiplicity at most one. */
  lemma {:induction false} DistinctIdsCounts(s: seq<Card>)
    ensures DistinctIds(s) <==> forall id :: Ids(s)[id] <= 1
  {
    if s == [] {
    } else {
      DistinctIdsCounts(s[1..]);
      assert IdSeq(s) == [Id(s[0])] + IdSeq(s[1..]);
      assert Ids(s) == multiset{Id(s[0])} + Ids(s[1..]);
      if DistinctIds(s) {
        assert DistinctIds(s[1..]) by {
          forall i, j | 0 <= i < j < |s| - 1 ensures Id(s[1..][i]) != Id(s[1..][j]) {
            assert s[1..][i] == s[i + 1] && s[1..][j] == s[j + 1];
          }
        }
        assert Id(s[0]) !in IdSeq(s[1..]) by {
          forall k | 0 <= k < |s| - 1 ensures IdSeq(s[1..])[k] != Id(s[0]) {
            assert s[1..][k] == s[k + 1];
          }
        }
      } else {
        var i, j :| 0 <= i < j < |s| && Id(s[i]) == Id(s[j]);
        if i == 0 {
          assert IdSeq(s[1..])[j - 1] == Id(s[0]);
          assert Ids(s)[Id(s[0])] >= 2;
        } else {
          assert s[1..][i - 1] == s[i] && s[1..][j - 1] == s[j];
          assert !DistinctIds(s[1..]);
          var id :| Ids(s[1..])[id] > 1;
          assert Ids(s)[id] > 1;
        }
      }
    }
  }
}
