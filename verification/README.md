# Klondike rules engine in Dafny

A model of the solitaire engine in `klondike_min2.2.py`:

- the cards: rank, suit, the face-up flag, value and colour;
- the piles: top, add_cards, remove_from;
- the move rules: is_valid_stack, the tableau `stacks.can_accept` and the foundation `aces.can_accept`;
- the game lifecycle: the deal, the stock click that draws or recycles, the tableau autoflip and the win test;
- the pointer-down (lift) and pointer-up (drop) handlers of the event loop, with the pixel hit-tests abstracted.

Five modules:

- `Cards` (cards.dfy) covers cards and the 52-card deck. Conservation is stated on the multiset of card identities, (rank, suit). `OneOfEach` says that multiset is exactly one of every card.
- `Piles` (piles.dfy) gives each pile operation twice:
  - as a pure function on `seq<Card>`, whose last element is the top;
  - as the in-place operation: the class `Pile` with its `cards` field, plus `TryAutoflipTableauTop` and `RecycleWasteToStock` over `Pile` objects.
  Each method is proved to produce exactly what its function says.
- `Rules` (rules.dfy) holds the run check and the two `can_accept` rules, both as functions and as methods that follow the source's branches. It also holds the pile shapes the rules keep: a foundation is a same-suit run A, 2, 3, …, and a column is a face-down part under a built face-up part.
- `Session` (session.dfy) is the whole game as a value. A `Table` holds 7 columns, 4 foundations, the stock, the waste and the drag state. The deal, the stock click, the lift and the drop are functions on it. `Invariant(t)` collects everything that holds of every reachable table:
  - exactly one of each of the 52 cards, counting the held run;
  - foundations are runs;
  - columns are shaped and show their top card;
  - the stock is face down and the waste face up;
  - a held run would restore its origin's shape.
  Each operation is proved to keep the invariant.
- `MainLoop` (game.dfy) is the event loop's state as objects. The class `Game` holds 13 `Pile` objects and the `dragging`, `dragCards` and `dragFrom` variables. Every handler is proved to change the piles exactly as the corresponding `Session` function says: `View() == Session.X(old(View()))`. It is also proved to keep `Valid()`, which is the invariant read off the objects.

Hit-tests appear as data:

- a `Pointer` records which of the stock, the waste top, each tableau card and each foundation top the pointer went down on;
- two boolean vectors say which foundation and which column rectangles hold the pointer on release.

The shuffle appears as the deck passed in. It must hold one of each card, all face down.

After a successful drop onto a foundation, a tableau origin is also autoflipped (klondike_min2.2.py:447-449), just as after a drop onto a column.

## Model

| member | source | states |
|---|---|---|
| Cards.Value | klondike_min2.2.py:155-162 | Ace is 1, Jack 11, Queen 12, King 13, a numeral its own number; the value is 1 exactly for an Ace and 13 exactly for a King |
| Cards.ColorOf | klondike_min2.2.py:150-153 | a card is red exactly when its suit is hearts or diamonds, black otherwise |
| Cards.RanksInValueOrder | klondike_min2.2.py:34 | the rank list holds 13 ranks in value order, and equal values mean equal ranks |
| Cards.FullDeck | klondike_min2.2.py:283 | the unshuffled deck has 52 cards, all face down |
| Cards.FullDeckIsComplete | klondike_min2.2.py:283 | the deck's 52 cards are pairwise different and include every (rank, suit) |
| Cards.OneOfEachIsFullDeck | klondike_min2.2.py:283 | a multiset holds one of each card exactly when it equals the deck's, and then it has 52 elements |
| Cards.ShuffleOfFullDeck | klondike_min2.2.py:284 | a sequence is a reordering of the deck exactly when it holds one of each card; such a sequence has 52 pairwise different cards |
| Piles.Top | klondike_min2.2.py:196-197 | no top exactly for an empty pile; otherwise the last card |
| Piles.IndexOf | klondike_min2.2.py:212 | the position found is the first occurrence of the card |
| Piles.Split | klondike_min2.2.py:208-216 | the kept part followed by the moving run is the original pile; an absent card moves nothing and keeps the pile; a present card starts the run and is not in the kept part |
| Piles.SplitAtPosition | klondike_min2.2.py:208-216 | on a pile without repeated cards, removing from the card at position k keeps cards[..k] and moves cards[k..] |
| Piles.Pile.constructor | klondike_min2.2.py:191-194 | a new pile of the given kind is empty |
| Piles.Pile.AddCards | klondike_min2.2.py:202-206 | the cards are appended in order: cards == old(cards) + moving |
| Piles.Pile.RemoveFrom | klondike_min2.2.py:208-216 | the new pile and the returned run are exactly Split(old pile, card) |
| Piles.Pile.TurnTopUp | klondike_min2.2.py:301 | the top card is turned face up and nothing else changes |
| Piles.TurnedUp | klondike_min2.2.py:301 | same length, the top face up with the same identity, every other card unchanged |
| Piles.Autoflipped | klondike_min2.2.py:318-320 | same length and cards; every card below the top unchanged; the top, if any, face up |
| Piles.TryAutoflipTableauTop | klondike_min2.2.py:318-320 | the pile becomes Autoflipped of the old pile |
| Piles.DrawTimes | klondike_min2.2.py:361-366 | k draws take the top k cards off the stock and push them on the waste face up, the stock top first |
| Piles.DrawConserves | klondike_min2.2.py:361-366 | drawing keeps the multiset of cards of stock and waste together |
| Piles.DrawKeepsFaces | klondike_min2.2.py:361-366 | drawing keeps a face-down stock face down and a face-up waste face up |
| Piles.Recycled | klondike_min2.2.py:308-316 | recycling empties the waste, appends its cards to the stock and keeps the multiset; a face-down stock stays face down |
| Piles.RecycleWasteToStock | klondike_min2.2.py:308-316 | the stock and waste become exactly Recycled of the old stock and waste: the waste reversed and face down, then emptied |
| Piles.DrawAllThenRecycle | klondike_min2.2.py:308-316 | drawing the whole stock and recycling it back restores the stock order, face down, under the cards the waste held before; from an empty waste it restores stock and waste exactly |
| Rules.ValidRun | klondike_min2.2.py:269-280 | a run is non-empty, face up throughout and alternates colour one value down per card; so its last card lies one value below its first for every card after the first, and no run holds more than 13 cards |
| Rules.TableauAccepts | klondike_min2.2.py:234-245 | a column accepts only a valid run, led by a King exactly when the column is empty; on a non-empty column the top card and the run together form a valid run |
| Rules.FoundationAccepts | klondike_min2.2.py:247-260 | a foundation accepts only a single face-up card, and an Ace exactly when it is empty |
| Rules.IsValidStack | klondike_min2.2.py:269-280 | true exactly for a non-empty run, all face up, each card one lower than and of the other colour from the card it lies on |
| Rules.StacksCanAccept | klondike_min2.2.py:234-245 | the tableau check answers TableauAccepts: false for an empty or invalid run, only a King onto an empty column, otherwise a face-up top one higher and of the other colour |
| Rules.AcesCanAccept | klondike_min2.2.py:247-260 | the foundation check answers FoundationAccepts: a single face-up card; an Ace onto an empty foundation, otherwise the top's suit and value plus one |
| Rules.FoundationAcceptKeepsRun | klondike_min2.2.py:247-260 | on a same-suit run from the Ace, a foundation accepts exactly one face-up card of the next value and the same suit, and the result is again such a run |
| Rules.FoundationRunPrefix | klondike_min2.2.py:399-408 | taking cards off the top of a foundation run leaves a foundation run |
| Rules.FoundationBound | klondike_min2.2.py:322-323 | a foundation run holds at most 13 cards, and one of 13 is Ace to King of one suit, face up |
| Rules.TableauAcceptKeepsShape | klondike_min2.2.py:234-245 | what a shaped column accepts is a valid run, led by a King on an empty column or building on a face-up top, and the column stays shaped with its top face up |
| Rules.TableauShapePrefix | klondike_min2.2.py:386-388 | taking cards off the top of a shaped column leaves a shaped column |
| Rules.TableauLiftIsRun | klondike_min2.2.py:386-388 | in a shaped column, the cards from any face-up card to the top form a valid run |
| Rules.AutoflipSettles | klondike_min2.2.py:318-320 | autoflip keeps a column shaped and leaves its top face up; it leaves a column whose top is already up unchanged |
| Rules.AcceptanceExamples | klondike_min2.2.py:234-260 | a King onto an empty column is accepted and a Queen refused; a red 9 onto a black face-up 10 is accepted, onto a red or face-down 10 refused; the foundation takes an Ace, then the 2 of its suit only |
| Session.InvariantNoDuplicates | klondike_min2.2.py:208-216 | on a reachable table there are 52 cards and no pile or held run has a repeated card, so removal by card is removal by position |
| Session.Deal | klondike_min2.2.py:282-306 | the opening table has seven columns of 1 to 7 cards, each with its top face up, 24 cards on the stock, and empty foundations, waste and hand |
| Session.DealShape | klondike_min2.2.py:282-306 | column c has c + 1 cards taken from the end of the deck, only its top face up; the stock is the other 24 cards in deck order; foundations, waste and hand are empty |
| Session.DealColumnShape | klondike_min2.2.py:297-302 | card k of column c is deck card 51 - Dealt(c) - k, face up exactly when it is the top |
| Session.UndealtSplit | klondike_min2.2.py:297-301 | dealing column c pops c + 1 cards off the end of the remaining deck, and the column is that slice reversed with its top turned up |
| Session.DealColumnSettled | klondike_min2.2.py:297-302 | every dealt column is shaped and shows its top card |
| Session.DealStartsValid | klondike_min2.2.py:282-306 | dealing a face-down reordering of the deck gives a table on which the invariant holds |
| Session.DealConserves | klondike_min2.2.py:283-305 | the dealt table holds exactly the deck's cards |
| Session.TableauConserves | klondike_min2.2.py:297-301 | the seven columns hold exactly the last 28 cards of the deck |
| Session.DealtColumnsConserve | klondike_min2.2.py:297-301 | the first n columns, each holding its slice, hold the deck's last Dealt(n) cards |
| Session.ColumnConserves | klondike_min2.2.py:298-301 | column c holds exactly the cards of its slice of the deck |
| Session.ColumnIsReversedSlice | klondike_min2.2.py:298-300 | position by position, the identities of column c are those of its deck slice reversed, the popping order, and so are its cards as a multiset |
| Session.PoppedOrder | klondike_min2.2.py:298-300 | the k-th card popped for column c is deck card 51 - Dealt(c) - k |
| Session.StockClick | klondike_min2.2.py:360-369 | a click on a non-empty stock takes between 1 and DRAW_COUNT cards off its top and leaves the rest in order; on an empty stock the waste empties into it; the cards of stock and waste together are kept |
| Session.ClickStock | klondike_min2.2.py:360-370 | a stock click changes neither the columns, the foundations nor the hand, and keeps the cards of stock and waste together |
| Session.ClickStockConserves | klondike_min2.2.py:360-369 | a stock click neither creates nor loses a card |
| Session.ClickStockPreserves | klondike_min2.2.py:360-369 | a stock click keeps the invariant and changes only the stock and the waste |
| Session.ClickStockCycle | klondike_min2.2.py:360-369 | with an empty waste, one click per stock card and one more to recycle restore the table exactly |
| Session.ClickThroughStock | klondike_min2.2.py:361-366 | k clicks on a stock of at least k cards draw exactly k cards |
| Session.Lift | klondike_min2.2.py:372-408 | a lift never touches the stock; when it changes the table, a non-empty run is held, and what is left of the touched pile followed by the run is the pile as it was: one card from the waste or a foundation, a run led by a face-up card from a column |
| Session.LiftConserves | klondike_min2.2.py:372-408 | a lift moves cards into the hand and neither creates nor loses any |
| Session.LiftPreserves | klondike_min2.2.py:372-408 | a lift keeps the invariant: the hand is face up and would restore its origin's shape |
| Session.LiftTableauKeepsShapes | klondike_min2.2.py:384-394 | lifting from a face-up card of a column leaves every column shaped, and the hand is a valid run from that column |
| Session.LiftFoundationKeepsShapes | klondike_min2.2.py:399-408 | lifting a foundation top keeps the invariant |
| Session.LiftTakesTouchedRun | klondike_min2.2.py:386-388 | lifting a face-up column card takes what remove_from detaches at that card, and it is a valid run |
| Session.TopmostInColumn | klondike_min2.2.py:386-387 | the card found is face up and under the pointer, and no card above it is both |
| Session.TableauPick | klondike_min2.2.py:383-396 | the column found is the first with a face-up card under the pointer, and the card found is its topmost one; none is found only if no column has such a card |
| Session.FoundationPick | klondike_min2.2.py:399-408 | the foundation found is the first non-empty one whose top is under the pointer; none is found only if there is none |
| Session.Touched | klondike_min2.2.py:372-401 | the waste top is touched exactly when the waste is non-empty and its top is under the pointer; a touched column card is face up and under the pointer; a touched foundation is non-empty with its top under the pointer; when nothing is touched, no non-empty foundation top is under the pointer |
| Session.PointerDown | klondike_min2.2.py:356-408 | a press on the stock changes neither the columns, the foundations nor the hand; a press elsewhere never touches the stock; the table keeps its seven columns and four foundations |
| Session.PointerDownAsWritten | klondike_min2.2.py:398-408 | the handler as written never crashes on a stock click; it crashes only when the pointer is off the stock and no face-up column card is under it |
| Session.PointerDownPreserves | klondike_min2.2.py:356-408 | a pointer-down keeps the invariant |
| Session.PointerDownLiftsWhatItTouches | klondike_min2.2.py:372-408 | off the stock, a run is held afterwards exactly when the pointer touched a liftable card; otherwise the table is unchanged |
| Session.PointerDownLiftsTouchedRun | klondike_min2.2.py:383-394 | when a column card is touched, it is face up and under the pointer; the column keeps the cards below it, and the hand is it and everything above it, a valid run |
| Session.AsWrittenCrashesOffTheTableau | klondike_min2.2.py:398-408 | the handler as written agrees with the intended one wherever it does not crash. It crashes exactly on a pointer-down that misses the stock, the waste top and every face-up column card, including one on a foundation top, which the intended handler lifts |
| Session.AsWrittenCrashesOnFoundationAce | klondike_min2.2.py:400 | a pointer-down on an Ace lying alone on the first foundation crashes the handler as written; the intended handler lifts it |
| Session.FirstFit | klondike_min2.2.py:423-438 | the pile found is the first that is hit and accepts the run; none is found only if no pile does both |
| Session.Settle | klondike_min2.2.py:447-449 | settling changes neither the foundations, the stock, the waste nor the hand, and no column changes its size |
| Session.ReturnTo | klondike_min2.2.py:443-445 | putting a run back changes only its origin pile: every other column and foundation, the stock and the hand stay as they were, and the waste unless it is the origin |
| Session.Drop | klondike_min2.2.py:418-454 | after a release nothing is held and the stock is as it was; a release with nothing held changes nothing |
| Session.SettleConserves | klondike_min2.2.py:447-449 | settling the origin only turns a card over |
| Session.DropConserves | klondike_min2.2.py:418-454 | a drop neither creates nor loses a card |
| Session.DropPreserves | klondike_min2.2.py:418-454 | a drop keeps the invariant and ends the drag |
| Session.SettleKeeps | klondike_min2.2.py:447-449 | once the run has landed, the autoflip of a column origin restores the idle invariant |
| Session.ReturnKeeps | klondike_min2.2.py:443-445 | a refused run put back on its origin restores the invariant |
| Session.FailedDropRestores | klondike_min2.2.py:443-445 | a lift followed by a drop that no hit pile accepts gives back exactly the table before the lift |
| Session.ReturnUndoesLift | klondike_min2.2.py:443-445 | putting a lifted run back on its origin undoes the lift |
| Session.RefusedDropReturns | klondike_min2.2.py:443-445 | a drop that no hit foundation or column accepts returns the run to its origin |
| Session.HasWon | klondike_min2.2.py:322-323 | on four foundations the game is won exactly when their sizes add up to 52, and in particular when each holds 13 cards |
| Session.WinMeansCompleteFoundations | klondike_min2.2.py:322-323 | on a reachable table the sizes sum to 52 exactly when every foundation has 13 cards; then each is Ace to King of one suit, and every other pile and the hand are empty |
| Session.CardCount | klondike_min2.2.py:322-323 | the number of cards on a table is the sum of the pile sizes and the hand |
| MainLoop.TopmostTouched | klondike_min2.2.py:386-387 | the scan of one column from the top down returns TopmostInColumn |
| MainLoop.NewPiles | klondike_min2.2.py:287-292 | n new, different, empty piles of one kind |
| MainLoop.NewTable | klondike_min2.2.py:286-294 | thirteen new, different, empty piles: seven columns, four foundations, a stock and a waste |
| MainLoop.PopOnto | klondike_min2.2.py:298-300 | popping count cards onto an empty pile leaves the deck without its last count cards and puts them on the pile in popping order |
| MainLoop.DealTableau | klondike_min2.2.py:297-302 | the nested deal loop gives column c exactly DealColumn(deck, c) and leaves the first 24 cards of the deck |
| MainLoop.DealNewGame | klondike_min2.2.py:282-306 | the new piles hold the deal: column c is DealColumn(deck, c), the foundations and waste are empty, the stock is the first 24 cards |
| MainLoop.Draw | klondike_min2.2.py:363-366 | the draw loop leaves the stock and waste exactly as DrawTimes says |
| MainLoop.StockClicked | klondike_min2.2.py:360-369 | a stock click on the two piles does exactly what StockClick says: draw, recycle, or nothing |
| MainLoop.TakeRun | klondike_min2.2.py:374-375 | on a pile without repeated cards, removing from the card at position k keeps cards[..k] and returns cards[k..] |
| MainLoop.FoundationsFull | klondike_min2.2.py:322-323 | summing the foundation sizes and comparing with 52 answers HasWon |
| MainLoop.Game.constructor | klondike_min2.2.py:341-345 | a new game is the deal of the given deck, with nothing held, and the invariant holds; its thirteen piles are new objects |
| MainLoop.Game.ClickStock | klondike_min2.2.py:360-370 | the stock branch changes the piles exactly as Session.ClickStock |
| MainLoop.Game.LiftWaste | klondike_min2.2.py:373-380 | lifting the waste top changes the game exactly as Lift from the waste top, and the invariant holds |
| MainLoop.Game.LiftColumn | klondike_min2.2.py:386-394 | lifting from a face-up column card changes the game exactly as Lift from that card, and the invariant holds |
| MainLoop.Game.LiftFoundation | klondike_min2.2.py:399-408 | lifting a foundation top changes the game exactly as Lift from that top, and the invariant holds |
| MainLoop.Game.FindTouchedColumn | klondike_min2.2.py:383-396 | the nested scan of the columns returns TableauPick |
| MainLoop.Game.FindTouchedFoundation | klondike_min2.2.py:399-401 | the scan of the foundations returns FoundationPick |
| MainLoop.Game.PointerDown | klondike_min2.2.py:356-408 | the pointer-down handler changes the game exactly as Session.PointerDown and keeps the invariant |
| MainLoop.Game.LiftTouched | klondike_min2.2.py:372-408 | a press off the stock lifts from the waste top, else the first touched column card, else the first touched foundation top, exactly as Session.PointerDown, and keeps the invariant |
| MainLoop.Game.FindFoundationTarget | klondike_min2.2.py:421-427 | the foundation scan on release returns FirstFit over the foundations |
| MainLoop.Game.FindColumnTarget | klondike_min2.2.py:430-438 | the column scan on release returns FirstFit over the columns |
| MainLoop.Game.PutOnFoundation | klondike_min2.2.py:425 | the held run is appended to foundation i and nothing else changes |
| MainLoop.Game.PutOnColumn | klondike_min2.2.py:439-440 | the held run is appended to column j and nothing else changes |
| MainLoop.Game.ReturnHand | klondike_min2.2.py:444-445 | the held run goes back onto its origin, as ReturnTo says |
| MainLoop.Game.SettleOrigin | klondike_min2.2.py:448-449 | a column origin is autoflipped and nothing else changes, as Settle says |
| MainLoop.Game.EndDrag | klondike_min2.2.py:451-454 | the drag ends and the piles stay as they are |
| MainLoop.Game.LandOnFoundation | klondike_min2.2.py:423-427 | a run landing on the first accepting foundation gives exactly Drop's table |
| MainLoop.Game.LandOnColumn | klondike_min2.2.py:430-441 | a run landing on the first accepting column, when no foundation took it, gives exactly Drop's table |
| MainLoop.Game.GiveBack | klondike_min2.2.py:443-445 | a run nothing accepts goes back, giving exactly Drop's table |
| MainLoop.Game.Release | klondike_min2.2.py:421-454 | the release handler while a run is held changes the game exactly as Drop and ends the drag |
| MainLoop.Game.PointerUp | klondike_min2.2.py:418-454 | the pointer-up handler changes the game exactly as Session.Drop, ends the drag and keeps the invariant |
| MainLoop.Game.Won | klondike_min2.2.py:497-498 | the win test answers HasWon, and on a reachable game it holds exactly when every foundation has 13 cards |
| MainLoop.FirstMove | klondike_min2.2.py:341-454 | a freshly dealt game followed by one press and its release ends with nothing held, the invariant holding, and the table Drop(PointerDown(Deal(deck), p)) |

## Left out

- Rendering, fonts, images, the gradient background, card and pile pixel layout, and the drag-motion handler (klondike_min2.2.py:410-416, 456-506). These are presentation and the pygame library.
- The asset search and loading (klondike_min2.2.py:80-136). This is file-system and image I/O.
- `random.shuffle` (klondike_min2.2.py:284). The constructor takes the shuffled deck as a parameter that must hold one of each card, all face down. No claim about randomness is made.
- `collidepoint` hit-tests (klondike_min2.2.py:360, 373, 387, 401, 424, 435). They are replaced by the `Pointer` record and the two boolean hit vectors on release, so any geometry is allowed.
- The `parent_pile` back-reference, `drag_offset` and card coordinates. They are written but never read by the rules.
- The unused `REDEAL_LIMIT` (klondike_min2.2.py:55).
- The QUIT event and the event loop itself. Each handler is a method; their order is the caller's.
- The render-time `stock.top().face_up = False` (klondike_min2.2.py:469). `Invariant` proves the stock is always face down, so that assignment changes nothing.
- Card objects are compared by identity in the source but by value here. On every reachable table no pile holds a card twice (Session.InvariantNoDuplicates), so removal at a card and removal at its position agree (Piles.SplitAtPosition).
- MainLoop.Game.PointerDown: requires that no run is held. The source's button-down handler does not check `dragging`. But with one mouse button, a button-up, which always ends a drag, comes between two button-downs. A second press during a drag would drop the held run from the game.
- MainLoop.Game.Release: the source keeps a `dropped` flag and one shared tail, after the foundation and column scans, that either returns the run or autoflips and then resets the drag. The model splits that tail into three paths: LandOnFoundation, LandOnColumn and GiveBack. Each path runs the same steps in the same order.

## Findings

| source | as written | input that shows it | evidently intended | confidence | as-written member | corrected member |
|---|---|---|---|---|---|---|
| klondike_min2.2.py:400 | the foundation pick-up loop iterates `aces`, the foundation pile class, not the `foundation` list; iterating a class raises a TypeError that nothing catches, so every pointer-down that misses the stock, the waste top and all face-up column cards ends the program | the first foundation holds a lone Ace, every other pile is empty, and the pointer goes down on that Ace | iterate the four foundation piles and lift the top of the first one under the pointer | not executed | Session.AsWrittenCrashesOnFoundationAce | MainLoop.Game.PointerDown |
