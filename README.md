# ArcadeOS core in Dafny

ArcadeOS is an iOS arcade of small games behind a freemium gate. This project models the parts of it that
decide things in discrete steps:

- **Access gate.** It decides whether a premium game is playable. A rewarded ad can unlock a game for
  30 minutes. At most two ads are allowed per calendar day, with an hour's cooldown between them. The paywall
  explains to the player why an ad cannot be watched yet.
- **Game catalog.** 100 games, 30 of them premium.
- **`Color(hex:)`.** The theme's hexadecimal colour parser.
- **The grid and turn games.** 2048, Memory, Simon, Whack-a-Mole, Color Match, Tic-Tac-Toe, Match-3, the
  15-puzzle, Solitaire's deal, Minesweeper, Tetris, Snake, Pac-Man's dots, Q\*bert and Sokoban.

Each source file maps to one module or more. Pure logic is modelled as functions and lemmas. A game whose view
state the source updates in place is modelled as a `class` with one field per `@State` property and one method
per handler. Each method's `ensures` clause ties the new state to specification functions of the old state.
The properties the game promises are proved about those functions, or kept as invariants in `Valid()`.

Everything the source takes from outside is a parameter of the model:
- the clock (`now`, in integer seconds), and the calendar (a day key and the start of tomorrow);
- every random draw (`shuffled()`, `randomElement()`, `Int.random`, `Bool.random`).

Files:
- `wrappers.dfy`: `Option`.
- `decimal.dfy`: Swift's `"\(n)"` and `Int(String)`.
- `catalog.dfy`, `access.dfy`, `paywall.dfy`, `hex_color.dfy`.
- One file per game.

## Model

| member | source | states |
|---|---|---|
| Decimal.NatToStringRoundTrip | ArcadeOS/Games/AllGames/RemainingGames.swift:32-41 | `Int(String)` reads back the decimal text interpolation writes for every non-negative `Int` |
| Decimal.ParseIntOverflow | ArcadeOS/Games/AllGames/RemainingGames.swift:39-41 | digits beyond the 64-bit `Int` range are not read as a number |
| Decimal.NatToStringInjective | ArcadeOS/Games/AllGames/RemainingGames.swift:32 | different numbers are written as different texts |
| Decimal.NatToStringHasNoComma | ArcadeOS/Games/AllGames/RemainingGames.swift:32 | a written number holds no comma, so "x,y" splits at the one comma between them |
| GameCatalog.FirstWithId | ArcadeOS/Desktop/GameCatalog.swift:130-132 | `first { $0.id == id }`: none exactly when no entry has the id; otherwise an entry with that id |
| GameCatalog.GameById | ArcadeOS/Desktop/GameCatalog.swift:130-132 | `game(byID:)` returns a catalog entry with the id, or nothing when no entry has it |
| GameCatalog.GameByIdFindsEveryGame | ArcadeOS/Desktop/GameCatalog.swift:23-132 | looking up any catalog entry's id returns that very entry |
| GameCatalog.AllGamesDistinctIds | ArcadeOS/Desktop/GameCatalog.swift:23-127 | no two of the 100 entries share an identifier |
| GameCatalog.CatalogLayout | ArcadeOS/Desktop/GameCatalog.swift:23-127 | 100 entries; entries 0 to 69 are free and entries 70 to 99 are premium |
| GameCatalog.FreeGamesAreFree | ArcadeOS/Desktop/GameCatalog.swift:24-96 | every entry of the free block is flagged free |
| GameCatalog.PremiumGamesArePremium | ArcadeOS/Desktop/GameCatalog.swift:97-127 | every entry of the premium block is flagged premium |
| GameCatalog.PremiumIdsArePremiumGames | ArcadeOS/Desktop/GameCatalog.swift:13-20 | `premiumIDs` is exactly the set of ids of the premium entries |
| GameCatalog.PremiumIdsCount | ArcadeOS/Desktop/GameCatalog.swift:12-20 | `premiumIDs` has 30 elements |
| GameCatalog.PremiumFlagMatchesPremiumIds | ArcadeOS/Desktop/GameCatalog.swift:7-20 | an entry is flagged premium exactly when its id is in `premiumIDs` |
| GameCatalog.IdsOfDistinct | ArcadeOS/Desktop/GameCatalog.swift:23-127 | a list with distinct ids has as many ids as entries |
| AccessManagement.HasTempAccess | ArcadeOS/Monetization/AccessManager.swift:42-51 | temporary access needs a record with a deadline |
| AccessManagement.PremiumAccessAfterGrant | ArcadeOS/Monetization/AccessManager.swift:53-80 | without a subscription a premium game is playable for exactly the 30 minutes after a grant |
| AccessManagement.HasAccess | ArcadeOS/Monetization/AccessManager.swift:53-55 | free games and subscribers always get access; a premium game for a non-subscriber needs a record |
| AccessManagement.CanWatchAd | ArcadeOS/Monetization/AccessManager.swift:84-112 | no record means an ad may be watched; a refusal needs a record from today |
| AccessManagement.EligibilityOrder | ArcadeOS/Monetization/AccessManager.swift:93-111 | on the record's own day, two unlocks forbid an ad; below that, the ad is allowed exactly when the last unlock is absent or an hour old |
| AccessManagement.NewDayResets | ArcadeOS/Monetization/AccessManager.swift:84-125 | a record from an earlier day allows an ad now, whatever its counter and cooldown |
| AccessManagement.NextAvailableTime | ArcadeOS/Monetization/AccessManager.swift:116-143 | the next time is absent only when the calendar cannot produce tomorrow |
| AccessManagement.EligibilityAgreesWithNextTime | ArcadeOS/Monetization/AccessManager.swift:84-143 | an ad is allowed exactly when the next available time is not in the future |
| AccessManagement.NextTimeWhenBlocked | ArcadeOS/Monetization/AccessManager.swift:127-140 | when blocked: at the daily cap the next time is the start of tomorrow, otherwise the end of the hour after the last unlock |
| AccessManagement.RemainingUnlockTime | ArcadeOS/Monetization/AccessManager.swift:147-155 | a remaining time exists exactly when there is temporary access; it is positive and reaches the deadline |
| AccessManagement.FormattedTime | ArcadeOS/Monetization/AccessManager.swift:165-174 | the text ends in "m" and shows hours exactly when at least an hour is left; its exact parts are stated by FormattedTimeReadBack |
| AccessManagement.FormattedTimeReadBack | ArcadeOS/Monetization/AccessManager.swift:165-173 | the text reads back as H = t / 3600 whole hours (written only when H > 0) and M = (t % 3600) / 60 minutes, M < 60, together the wait rounded down to a whole minute |
| AccessManagement.AccessManager.constructor | ArcadeOS/Monetization/AccessManager.swift:15-23 | a new manager starts with an empty map (nothing persisted is loaded) |
| AccessManagement.AccessManager.GrantTempAccess | ArcadeOS/Monetization/AccessManager.swift:59-80 | the map becomes the granted map for this game and time |
| AccessManagement.GrantRecord | ArcadeOS/Monetization/AccessManager.swift:59-76 | a grant sets a 30-minute deadline, the unlock time and today's key; it adds one to the counter on the same day and restarts it at 1 on a new day |
| AccessManagement.GrantLeavesOtherGames | ArcadeOS/Monetization/AccessManager.swift:63-76 | a grant adds its own game's key and changes no other record |
| AccessManagement.GrantLeavesOtherAnswers | ArcadeOS/Monetization/AccessManager.swift:42-155 | after a grant, every query about another game answers as before |
| AccessManagement.GrantUnlocksForHalfAnHour | ArcadeOS/Monetization/AccessManager.swift:42-80 | after a grant the game is open for exactly the next 30 minutes, and the remaining time counts down from 30 minutes |
| AccessManagement.GrantStartsCooldown | ArcadeOS/Monetization/AccessManager.swift:59-112 | within the hour after a grant on the same day, no further ad is allowed |
| AccessManagement.ThirdGrantSameDay | ArcadeOS/Monetization/AccessManager.swift:59-101 | a grant does not check eligibility: a third grant on one day goes through and leaves the counter at 3 |
| Paywall.LimitMessage | ArcadeOS/Monetization/PaywallModal.swift:108-126 | "Not available" exactly when there is no next time or it is not in the future; the daily-limit text exactly when the wait exceeds an hour |
| Paywall.AdSectionFor | ArcadeOS/Monetization/PaywallModal.swift:42-58 | the Watch Ad button is shown exactly when an ad is allowed; it is disabled, with a loading note, while no ad is ready |
| Paywall.HiddenButtonExplained | ArcadeOS/Monetization/PaywallModal.swift:108-126 | when the button is hidden, the notice is never "Not available" |
| Paywall.CooldownShowsRemaining | ArcadeOS/Monetization/PaywallModal.swift:114-122 | during a cooldown the notice counts down to the end of the hour after the last unlock |
| Paywall.DailyCapShowsTomorrow | ArcadeOS/Monetization/PaywallModal.swift:114-118 | at the daily cap, more than an hour before midnight, the notice says to come back tomorrow |
| Paywall.DailyCapNearMidnightShowsCooldown | ArcadeOS/Monetization/PaywallModal.swift:114-122 | at the daily cap, within the last hour before midnight, the notice reads as a cooldown |
| HexColor.HexPrefix | ArcadeOS/RetroUI/Theme.swift:9 | the scanned prefix is the longest leading run of hex digits |
| HexColor.TrimLeading | ArcadeOS/RetroUI/Theme.swift:7 | the result is a suffix of the input that starts with an alphanumeric character |
| HexColor.TrimTrailing | ArcadeOS/RetroUI/Theme.swift:7 | the result is a prefix of the input that ends with an alphanumeric character |
| HexColor.HexChannels | ArcadeOS/RetroUI/Theme.swift:11-20 | any length other than 3, 6 or 8 gives (1, 1, 1, 0); lengths 3 and 6 are opaque |
| HexColor.ScanHexBound | ArcadeOS/RetroUI/Theme.swift:9 | a scan never exceeds the value of as many hex digits as the text has |
| HexColor.ChannelsAreBytes | ArcadeOS/RetroUI/Theme.swift:11-20 | every channel of every input lies in 0..255 |
| HexColor.TrimOfAlphanumeric | ArcadeOS/RetroUI/Theme.swift:7 | trimming "#" from an alphanumeric text gives the text |
| HexColor.ScanOfHexDigits | ArcadeOS/RetroUI/Theme.swift:9 | a text made only of hex digits scans to its value |
| HexColor.RgbRoundTrip | ArcadeOS/RetroUI/Theme.swift:14-15 | "#rrggbb" written from three bytes reads back as those bytes, fully opaque |
| HexColor.ArgbRoundTrip | ArcadeOS/RetroUI/Theme.swift:16-17 | "#aarrggbb" reads back as alpha, red, green and blue |
| HexColor.ShortRgbRoundTrip | ArcadeOS/RetroUI/Theme.swift:12-13 | "#rgb" gives each nibble times 17, fully opaque |
| HexColor.WhiteShortForm | ArcadeOS/RetroUI/Theme.swift:12-13 | "fff" is opaque white |
| Game2048.CoordsInverse | ArcadeOS/Games/CasualGames/CasualGames.swift:223-230 | position j of line i is a cell, and the cell maps back to (i, j) |
| Game2048.LinePositionInverse | ArcadeOS/Games/CasualGames/CasualGames.swift:223-230 | every cell lies on exactly one line position in each direction |
| Game2048.Compact | ArcadeOS/Games/CasualGames/CasualGames.swift:184-188 | the non-zero tiles of a line are no more than the line |
| Game2048.CompactElements | ArcadeOS/Games/CasualGames/CasualGames.swift:184-188 | compacting keeps only non-zero tiles of the line |
| Game2048.Merge | ArcadeOS/Games/CasualGames/CasualGames.swift:190-205 | a merge at most halves a line |
| Game2048.MergeGainCountsMerges | ArcadeOS/Games/CasualGames/CasualGames.swift:197-200 | the points are never negative and are zero exactly when nothing merged |
| Game2048.SlideLine | ArcadeOS/Games/CasualGames/CasualGames.swift:183-207 | a slid line has four cells |
| Game2048.SlideLineSum | ArcadeOS/Games/CasualGames/CasualGames.swift:183-207 | sliding a line keeps its total |
| Game2048.SlideGridSum | ArcadeOS/Games/CasualGames/CasualGames.swift:179-214 | a move keeps the total of all tiles before the new tile |
| Game2048.SlideLineNoDoubleMerge | ArcadeOS/Games/CasualGames/CasualGames.swift:192-205 | [2, 2, 4] becomes [4, 4]: a merged tile does not merge again |
| Game2048.SlideLinePairsFromFront | ArcadeOS/Games/CasualGames/CasualGames.swift:192-205 | four 2s become two 4s, pairing from the leading edge |
| Game2048.SlideLineClosesGaps | ArcadeOS/Games/CasualGames/CasualGames.swift:184-188 | gaps close before merging |
| Game2048.LineOfSlideGrid | ArcadeOS/Games/CasualGames/CasualGames.swift:209-213 | each line of the new grid is the slid line |
| Game2048.SlideGridIsBoard | ArcadeOS/Games/CasualGames/CasualGames.swift:179-214 | a move never produces a negative tile |
| Game2048.UnchangedGridEarnsNothing | ArcadeOS/Games/CasualGames/CasualGames.swift:197-220 | a move that leaves the grid as it is scores nothing, so no tile is added after it |
| Game2048.NoMovesMeansStuck | ArcadeOS/Games/CasualGames/CasualGames.swift:232-241 | when `checkGameOver` ends the game, no direction changes the grid |
| Game2048.EmptyPrefixExact | ArcadeOS/Games/CasualGames/CasualGames.swift:169-174 | the listed cells are exactly the empty ones |
| Game2048.CollectEmpty | ArcadeOS/Games/CasualGames/CasualGames.swift:169-174 | the nested loop lists the empty cells in row-major order |
| Game2048.PlaceTileOnEmptyCell | ArcadeOS/Games/CasualGames/CasualGames.swift:168-177 | a full grid is unchanged; otherwise one listed empty cell gets a 2 or a 4 and nothing else changes |
| Game2048.EmptyCellsNonEmpty | ArcadeOS/Games/CasualGames/CasualGames.swift:169-175 | a tile is placed exactly when some cell is empty |
| Game2048.Game.constructor | ArcadeOS/Games/CasualGames/CasualGames.swift:95-98 | an empty grid and no score |
| Game2048.Game.StartGame | ArcadeOS/Games/CasualGames/CasualGames.swift:159-166 | an empty grid with two random tiles placed, score 0 |
| Game2048.Game.AddRandomTile | ArcadeOS/Games/CasualGames/CasualGames.swift:168-177 | the grid becomes the placed-tile grid, nothing else changes |
| Game2048.Game.Move | ArcadeOS/Games/CasualGames/CasualGames.swift:179-221 | the score grows by the merge points; an unmoved grid stays as it is; a moved grid is slid, gets a tile and is checked for game over |
| Game2048.Game.SlideLines | ArcadeOS/Games/CasualGames/CasualGames.swift:183-214 | the new grid is every line slid, and `moved` holds exactly when the grid changed or something merged |
| Game2048.WriteLine | ArcadeOS/Games/CasualGames/CasualGames.swift:209-213 | writing a slid line into the new grid gives the grid with one more line slid; a reported change means the grid differs |
| Game2048.Game.ReadLine | ArcadeOS/Games/CasualGames/CasualGames.swift:184-188 | the loop reads the line's non-zero tiles |
| Game2048.Game.MergeLine | ArcadeOS/Games/CasualGames/CasualGames.swift:190-205 | the loop produces the merged line and adds its points |
| Game2048.MergeRun | ArcadeOS/Games/CasualGames/CasualGames.swift:190-205 | the merge loop yields the merged line and its points, and reports a merge exactly when it scored |
| Game2048.PadLine | ArcadeOS/Games/CasualGames/CasualGames.swift:207 | the line is padded with zeros to four |
| Game2048.Game.CheckGameOver | ArcadeOS/Games/CasualGames/CasualGames.swift:232-241 | the game is over exactly when no cell is empty and no neighbours are equal |
| Memory.DeckLayout | ArcadeOS/Games/CasualGames/CasualGames.swift:59-65 | 16 cards with ids 0 to 15; the partner card has the same pair and symbol |
| Memory.PartnerInvolution | ArcadeOS/Games/CasualGames/CasualGames.swift:62-65 | a card's partner is another card whose partner is the card |
| Memory.SamePairMeansPartner | ArcadeOS/Games/CasualGames/CasualGames.swift:80 | two cards of a shuffled deck share a pair id exactly when they are partners |
| Memory.FaceUpCount | ArcadeOS/Games/CasualGames/CasualGames.swift:79 | the filter keeps one card per listed id present |
| Memory.FaceUpMembers | ArcadeOS/Games/CasualGames/CasualGames.swift:79 | every card the filter keeps is a dealt card whose id is face up |
| Memory.FaceUpDistinct | ArcadeOS/Games/CasualGames/CasualGames.swift:79 | the filter keeps cards with different ids |
| Memory.FaceUpOfTwo | ArcadeOS/Games/CasualGames/CasualGames.swift:78-80 | with two ids flipped, the filter yields those two cards |
| Memory.MatchPair | ArcadeOS/Games/CasualGames/CasualGames.swift:81 | matched cards stay in whole pairs; a match adds two cards |
| Memory.SecondCardPairs | ArcadeOS/Games/CasualGames/CasualGames.swift:73-81 | the second card turned up makes a pair exactly when its partner was face up, and the pair is that card and its partner |
| Memory.MemoryGame.StartGame | ArcadeOS/Games/CasualGames/CasualGames.swift:59-71 | the shuffled deck is dealt; nothing is flipped or matched; score 0 |
| Memory.MemoryGame.FlipCard | ArcadeOS/Games/CasualGames/CasualGames.swift:73-90 | a matched card, or any card while two are face up, changes nothing; a card whose partner is face up completes the pair: both are matched, 10 is scored and nothing stays face up; any other card is turned face up |
| Memory.MemoryGame.CheckPair | ArcadeOS/Games/CasualGames/CasualGames.swift:78-89 | two partners are matched and score 10; other pairs stay flipped |
| Memory.MemoryGame.ClearFlipped | ArcadeOS/Games/CasualGames/CasualGames.swift:85-87 | the delayed reset turns the cards back |
| Simon.TapFollowsSequence | ArcadeOS/Games/CasualGames/CasualGames.swift:313-334 | a tap is right exactly when the input so far plus the tap is a prefix of the sequence, and completes the round exactly when it equals the sequence |
| Simon.SimonGame.StartGame | ArcadeOS/Games/CasualGames/CasualGames.swift:283-290 | the sequence is the one random button; no input; playback starts |
| Simon.SimonGame.AddToSequence | ArcadeOS/Games/CasualGames/CasualGames.swift:292-296 | the button is appended, the input cleared, and playback starts |
| Simon.SimonGame.SequenceShown | ArcadeOS/Games/CasualGames/CasualGames.swift:305-307 | after playback the buttons accept input |
| Simon.SimonGame.ButtonTapped | ArcadeOS/Games/CasualGames/CasualGames.swift:313-334 | taps during playback are ignored; a wrong tap ends the game; a round-completing tap scores 1 |
| WhackAMole.DownHolesExact | ArcadeOS/Games/CasualGames/CasualGames.swift:403 | the available holes are exactly the lowered ones, in increasing order |
| WhackAMole.DownPlusRaised | ArcadeOS/Games/CasualGames/CasualGames.swift:403 | every hole is lowered or raised |
| WhackAMole.RaiseOne | ArcadeOS/Games/CasualGames/CasualGames.swift:405-407 | raising a hole adds one raised mole; lowering it removes one |
| WhackAMole.WhackAMoleGame.StartGame | ArcadeOS/Games/CasualGames/CasualGames.swift:395-400 | all holes lowered, score 0, 30 seconds, active |
| WhackAMole.WhackAMoleGame.Tap | ArcadeOS/Games/CasualGames/CasualGames.swift:368-373 | tapping a raised mole scores 1 and lowers it; an empty hole does nothing |
| WhackAMole.WhackAMoleGame.SpawnMole | ArcadeOS/Games/CasualGames/CasualGames.swift:402-405 | with all holes up nothing changes; otherwise one lowered hole goes up |
| WhackAMole.WhackAMoleGame.Despawn | ArcadeOS/Games/CasualGames/CasualGames.swift:406-408 | the delayed callback lowers its hole |
| WhackAMole.WhackAMoleGame.Tick | ArcadeOS/Games/CasualGames/CasualGames.swift:382-389 | an active round loses a second and ends at zero |
| ColorMatch.HitsPlusMisses | ArcadeOS/Games/CasualGames/CasualGames.swift:483-493 | every selection is a hit or a miss |
| ColorMatch.ColorMatchGame.StartGame | ArcadeOS/Games/CasualGames/CasualGames.swift:471-476 | three lives, score 0, a first round |
| ColorMatch.ColorMatchGame.NewRound | ArcadeOS/Games/CasualGames/CasualGames.swift:478-481 | a new target and current colour |
| ColorMatch.ColorMatchGame.SelectColor | ArcadeOS/Games/CasualGames/CasualGames.swift:483-493 | a match scores 1 and deals a round; a miss costs a life and ends the game at zero |
| ColorMatch.GameLastsThreeMisses | ArcadeOS/Games/CasualGames/CasualGames.swift:473-491 | in any valid game at most three selections have missed, fewer than three while it runs, so every selection but three at most has scored |
| TicTacToe.Line | ArcadeOS/Games/AllGames/MegaGamesCollection.swift:42 | each winning line is three different cells of the board |
| TicTacToe.FirstWinSound | ArcadeOS/Games/AllGames/MegaGamesCollection.swift:43-47 | a reported win names the mark of a complete line |
| TicTacToe.FirstWinNone | ArcadeOS/Games/AllGames/MegaGamesCollection.swift:43-48 | no win is reported exactly when no line is complete |
| TicTacToe.JudgeMeaning | ArcadeOS/Games/AllGames/MegaGamesCollection.swift:41-50 | a win exactly when some line is complete; a draw exactly when the board is full with no complete line; undecided otherwise |
| TicTacToe.CountPlace | ArcadeOS/Games/AllGames/MegaGamesCollection.swift:36 | a mark on a blank cell adds one of that mark and removes one blank |
| TicTacToe.OnlyMoverCanWin | ArcadeOS/Games/AllGames/MegaGamesCollection.swift:34-47 | on an undecided board, a move can only make its own mark win |
| TicTacToe.EmptyBoardUndecided | ArcadeOS/Games/AllGames/MegaGamesCollection.swift:52-56 | an empty board has no winner |
| TicTacToe.TicTacToeGame.Reset | ArcadeOS/Games/AllGames/MegaGamesCollection.swift:52-56 | an empty board, X to move, no verdict |
| TicTacToe.TicTacToeGame.MakeMove | ArcadeOS/Games/AllGames/MegaGamesCollection.swift:34-39 | an occupied cell or a decided game is refused; otherwise the mover's mark is placed, the verdict judged and the turn passed |
| TicTacToe.TicTacToeGame.CheckWinner | ArcadeOS/Games/AllGames/MegaGamesCollection.swift:41-50 | the verdict becomes the judgement of the board |
| Match3.RowRunsMember | ArcadeOS/Games/AllGames/MegaGamesCollection.swift:110-115 | a cell is collected from a row exactly when a run of three starting before the bound covers it |
| Match3.MatchedMeaning | ArcadeOS/Games/AllGames/MegaGamesCollection.swift:108-117 | a cell is matched exactly when it lies in a horizontal run of three equal gems |
| Match3.SwapTwiceRestores | ArcadeOS/Games/AllGames/MegaGamesCollection.swift:98 | swapping the same two gems twice restores the grid |
| Match3.NoRunNoChange | ArcadeOS/Games/AllGames/MegaGamesCollection.swift:118-125 | a grid with no run is left as it is |
| Match3.Match3Game.FillGrid | ArcadeOS/Games/AllGames/MegaGamesCollection.swift:87-93 | the row-by-row fill leaves the grid equal to the drawn board, each gem a kind in 0..<5; score and selection unchanged |
| Match3.Match3Game.SelectGem | ArcadeOS/Games/AllGames/MegaGamesCollection.swift:95-105 | the first tap selects; a second adjacent tap swaps and checks; any second tap clears the selection |
| Match3.Match3Game.SwapCells | ArcadeOS/Games/AllGames/MegaGamesCollection.swift:98 | the two gems change places |
| Match3.Match3Game.CheckMatches | ArcadeOS/Games/AllGames/MegaGamesCollection.swift:107-126 | matched cells are refilled and score 10 each |
| Match3.Match3Game.CollectRuns | ArcadeOS/Games/AllGames/MegaGamesCollection.swift:108-117 | the nested scan collects exactly the matched cells |
| Match3.Match3Game.RefillCells | ArcadeOS/Games/AllGames/MegaGamesCollection.swift:120-124 | every collected cell takes its new gem |
| SlidingPuzzle.BlankNeighbourSound | ArcadeOS/Games/AllGames/MegaGamesCollection.swift:235-240 | a found neighbour is on the board, adjacent and blank |
| SlidingPuzzle.MovesIffBlankAdjacent | ArcadeOS/Games/AllGames/MegaGamesCollection.swift:234-246 | a tap moves a tile exactly when an adjacent cell holds the blank |
| SlidingPuzzle.BlankNeighbourFound | ArcadeOS/Games/AllGames/MegaGamesCollection.swift:236-240 | if any neighbour tried is on the board and blank, the search finds one |
| SlidingPuzzle.FindBlankNeighbour | ArcadeOS/Games/AllGames/MegaGamesCollection.swift:235-246 | the loop returns the first of above, below, left, right that is on the board and blank, or nothing |
| SlidingPuzzle.SwapKeepsTiles | ArcadeOS/Games/AllGames/MegaGamesCollection.swift:241 | a swap keeps the tiles and the arrangement, and swapping again undoes it |
| SlidingPuzzle.SwapKeepsArrangement | ArcadeOS/Games/AllGames/MegaGamesCollection.swift:241 | exchanging two tiles of an arrangement leaves an arrangement |
| SlidingPuzzle.SolvedIsArrangement | ArcadeOS/Games/AllGames/MegaGamesCollection.swift:210 | the starting order is an arrangement of 1 to 15 and the blank |
| SlidingPuzzle.SlidingPuzzleGame.MoveTile | ArcadeOS/Games/AllGames/MegaGamesCollection.swift:234-247 | with no blank neighbour nothing changes; otherwise the tile swaps with the first blank neighbour and the move count grows by 1 |
| SlidingPuzzle.SlidingPuzzleGame.Shuffle | ArcadeOS/Games/AllGames/MegaGamesCollection.swift:249-252 | the tiles take the shuffled order and the count restarts |
| Solitaire.CardIndicesRoundTrip | ArcadeOS/Games/AllGames/MegaGamesCollection.swift:385-389 | suit and value indices name every card, and every pair of indices names one card |
| Solitaire.FaceIdentifiesCard | ArcadeOS/Games/AllGames/MegaGamesCollection.swift:385-390 | different cards show different faces |
| Solitaire.ConcatOfCuts | ArcadeOS/Games/AllGames/MegaGamesCollection.swift:401-404 | piles cut one after another from the deck, laid end to end, give back the front of the deck |
| Solitaire.SolitaireGame.Deal | ArcadeOS/Games/AllGames/MegaGamesCollection.swift:397-405 | pile p takes the next p + 1 cards; 24 cards remain; piles plus deck are the shuffled deck |
| Solitaire.DealPiles | ArcadeOS/Games/AllGames/MegaGamesCollection.swift:401-404 | the dealing loop gives pile p the next p + 1 cards and leaves the rest as the deck |
| Minesweeper.EmptyNeighbourSafe | ArcadeOS/Games/SimpleGames/SimpleGames.swift:359-387 | no mine lies next to a cell labelled empty |
| Minesweeper.SameMinesAround | ArcadeOS/Games/SimpleGames/SimpleGames.swift:359-372 | a cell's count depends only on where the mines are |
| Minesweeper.HiddenReveal | ArcadeOS/Games/SimpleGames/SimpleGames.swift:380 | revealing a hidden cell leaves one hidden cell fewer |
| Minesweeper.CountAround | ArcadeOS/Games/SimpleGames/SimpleGames.swift:362-371 | the nine-offset loop counts the mines on the board around a cell |
| Minesweeper.PlaceMines | ArcadeOS/Games/SimpleGames/SimpleGames.swift:347-356 | the mines are exactly the cells of the draws up to the one that brings the fifteenth different cell; every other cell stays empty |
| Minesweeper.FirstDistinctDrawsUnique | ArcadeOS/Games/SimpleGames/SimpleGames.swift:347-356 | the draws decide the mines: only one set of cells is the first 15 different draws |
| Minesweeper.LabelCells | ArcadeOS/Games/SimpleGames/SimpleGames.swift:358-374 | the mines stay put and every other cell carries the label of its count |
| Minesweeper.ScanClear | ArcadeOS/Games/SimpleGames/SimpleGames.swift:406-414 | the scan finds that every cell without a mine is revealed |
| Minesweeper.Flood | ArcadeOS/Games/SimpleGames/SimpleGames.swift:377-399 | a reveal only adds revealed cells, never a flagged or mined one; it spreads around every empty cell it reveals, and every cell it reveals other than the tapped one lies next to an empty cell it revealed; the win flag tells whether every safe cell is revealed |
| Minesweeper.FloodRow | ArcadeOS/Games/SimpleGames/SimpleGames.swift:388-395 | the three neighbours in one row of an empty cell end up flagged or revealed, and every other cell revealed lies next to an empty cell revealed on the way |
| Minesweeper.FloodNeighbour | ArcadeOS/Games/SimpleGames/SimpleGames.swift:390-392 | the recursive reveal of one hidden neighbour of an empty cell leaves that neighbour flagged or revealed, reveals no flag and no mine, and keeps every other revealed cell next to a revealed empty cell |
| Minesweeper.SpreadStages | ArcadeOS/Games/SimpleGames/SimpleGames.swift:388-395 | cells reached from newly revealed empty cells stay so across successive recursive reveals |
| Minesweeper.FirstSpread | ArcadeOS/Games/SimpleGames/SimpleGames.swift:380-396 | after the tapped cell and the spread around it, every other revealed cell lies next to a revealed empty cell |
| Minesweeper.MinesweeperGame.StartGame | ArcadeOS/Games/SimpleGames/SimpleGames.swift:339-375 | the first 15 different drawn cells take the mines, labels are consistent, nothing is revealed or flagged |
| Minesweeper.MinesweeperGame.RevealCell | ArcadeOS/Games/SimpleGames/SimpleGames.swift:377-399 | a guarded tap changes nothing; a mine is revealed and ends the game; otherwise the flood reveals safe cells, each the tapped cell or next to a revealed empty cell, and checks for a win |
| Minesweeper.MinesweeperGame.CheckWin | ArcadeOS/Games/SimpleGames/SimpleGames.swift:406-414 | the game is won exactly when every safe cell is revealed (or it already was) |
| Minesweeper.MinesweeperGame.ToggleFlag | ArcadeOS/Games/SimpleGames/SimpleGames.swift:401-404 | only a hidden cell of an undecided game changes its flag |
| Tetris.AllShapesAreShapes | ArcadeOS/Games/Tetris/TetrisGameView.swift:189-197 | each of the seven shapes is a rectangle no taller than it is wide |
| Tetris.BlocksMeaning | ArcadeOS/Games/Tetris/TetrisGameView.swift:166-176 | a cell is a block exactly when it lies over a true entry of the shape; no block is listed twice |
| Tetris.CollectBlocks | ArcadeOS/Games/Tetris/TetrisGameView.swift:166-176 | the nested loop lists the piece's blocks |
| Tetris.FitsMoved | ArcadeOS/Games/Tetris/TetrisGameView.swift:124-133 | testing a shift agrees with testing the shifted piece |
| Tetris.RotateAsWritten | ArcadeOS/Games/Tetris/TetrisGameView.swift:178-187 | the source's rotation builds an n×n matrix, n being the number of rows |
| Tetris.RotateAsWrittenLosesBlocks | ArcadeOS/Games/Tetris/TetrisGameView.swift:178-190 | the I piece has 4 blocks, but the source's rotation leaves 1; the quarter turn keeps 4 |
| Tetris.RotateSquare | ArcadeOS/Games/Tetris/TetrisGameView.swift:178-187 | on square shapes the source's rotation is the quarter turn |
| Tetris.Rotate | ArcadeOS/Games/Tetris/TetrisGameView.swift:178-187 | the quarter turn of a rows×cols shape is a cols×rows shape |
| Tetris.RotateFourTimes | ArcadeOS/Games/Tetris/TetrisGameView.swift:178-187 | four quarter turns give the shape back |
| Tetris.RotateBlocks | ArcadeOS/Games/Tetris/TetrisGameView.swift:183 | cell (j, k) of the turned shape is a block exactly when cell (rows - 1 - k, j) of the shape is |
| Tetris.RotateShape | ArcadeOS/Games/Tetris/TetrisGameView.swift:179-186 | the loop writing rotated[j][rows - 1 - i] computes the quarter turn |
| Tetris.KeepAndFullRows | ArcadeOS/Games/Tetris/TetrisGameView.swift:150-155 | kept rows and full rows together make up the well; kept rows are not full |
| Tetris.ClearedMeaning | ArcadeOS/Games/Tetris/TetrisGameView.swift:148-158 | the cleared well is 20×10, has no full row, and has one new empty row per full row removed |
| Tetris.SweepAsWritten | ArcadeOS/Games/Tetris/TetrisGameView.swift:150-156 | the source's sweep keeps the number of rows |
| Tetris.SweepAsWrittenLeavesFullRow | ArcadeOS/Games/Tetris/TetrisGameView.swift:150-156 | with the two bottom rows full, the source's sweep leaves a full bottom row, while the intended result does not |
| Tetris.ClearRows | ArcadeOS/Games/Tetris/TetrisGameView.swift:148-158 | the loop computes the cleared well and counts the full rows |
| Tetris.StampedMeaning | ArcadeOS/Games/Tetris/TetrisGameView.swift:138-142 | a locked piece fills its cells with its colour and changes no other cell |
| Tetris.TetrisGame.StartGame | ArcadeOS/Games/Tetris/TetrisGameView.swift:83-89 | an empty well, score 0, a spawned piece |
| Tetris.TetrisGame.SpawnPiece | ArcadeOS/Games/Tetris/TetrisGameView.swift:91-98 | the chosen shape at (0, 4); the game ends if it does not fit |
| Tetris.TetrisGame.CanMove | ArcadeOS/Games/Tetris/TetrisGameView.swift:124-133 | the answer is whether every shifted block is free |
| Tetris.TetrisGame.MovePiece | ArcadeOS/Games/Tetris/TetrisGameView.swift:110-114 | the piece shifts exactly when the shift fits |
| Tetris.TetrisGame.RotatePiece | ArcadeOS/Games/Tetris/TetrisGameView.swift:116-122 | the piece takes the turned shape exactly when that fits |
| Tetris.TetrisGame.DropPiece | ArcadeOS/Games/Tetris/TetrisGameView.swift:100-108 | the piece falls a row if it fits, otherwise it locks |
| Tetris.TetrisGame.LockPiece | ArcadeOS/Games/Tetris/TetrisGameView.swift:135-146 | the piece is stamped, full lines clear, and the next piece spawns |
| Tetris.TetrisGame.ClearLines | ArcadeOS/Games/Tetris/TetrisGameView.swift:148-158 | the well is cleared and the score grows by 100 per full row |
| Snake.OppositeIsReverse | ArcadeOS/Games/Snake/SnakeGameView.swift:113-121 | a refused request is exactly a request to reverse |
| Snake.AheadFacts | ArcadeOS/Games/Snake/SnakeGameView.swift:126-133 | a step and a step back return to the start; different directions lead to different cells |
| Snake.NeverIntoNeck | ArcadeOS/Games/Snake/SnakeGameView.swift:113-124 | the queued move never turns the head onto the neck |
| Snake.PickFood | ArcadeOS/Games/Snake/SnakeGameView.swift:158-162 | the food is the first draw not on the snake, on the grid |
| Snake.SnakeGame.StartGame | ArcadeOS/Games/Snake/SnakeGameView.swift:103-111 | one segment at (10, 10), heading right, score 0, food off the snake |
| Snake.SnakeGame.ChangeDirection | ArcadeOS/Games/Snake/SnakeGameView.swift:113-121 | a reversal is ignored and any other direction is queued; the queued direction never reverses the current one |
| Snake.SnakeGame.UpdateGame | ArcadeOS/Games/Snake/SnakeGameView.swift:123-156 | the queued direction takes effect; a wall or any segment ends the game with the snake unchanged; food grows the snake and scores 10; otherwise the tail follows; segments stay on the grid, apart and connected |
| PacMan.Run | ArcadeOS/Games/AllGames/RemainingGames.swift:39 | the leading stretch without the separator ends at the first separator |
| PacMan.SplitPieces | ArcadeOS/Games/AllGames/RemainingGames.swift:39 | the pieces of a split are non-empty and free of the separator |
| PacMan.SplitJoined | ArcadeOS/Games/AllGames/RemainingGames.swift:32-39 | "a,b" splits into a and b |
| PacMan.DecodeEncode | ArcadeOS/Games/AllGames/RemainingGames.swift:32-41 | reading a written dot gives back its coordinates |
| PacMan.EncodeInjective | ArcadeOS/Games/AllGames/RemainingGames.swift:32 | different dots are written differently |
| PacMan.DotsUpToCount | ArcadeOS/Games/AllGames/RemainingGames.swift:29-35 | the first n dots written are n different strings |
| PacMan.AllDotsCount | ArcadeOS/Games/AllGames/RemainingGames.swift:29-35 | `spawnDots` writes 14 × 17 = 238 different dots |
| PacMan.AllDotsMeaning | ArcadeOS/Games/AllGames/RemainingGames.swift:29-35 | a point is written exactly when x is one of 50, 80, …, 440 and y one of 50, 80, …, 530 |
| PacMan.AllDotsDecode | ArcadeOS/Games/AllGames/RemainingGames.swift:38-41 | every board dot reads back as a dot position, so the force-unwraps never fail |
| PacMan.FindNear | ArcadeOS/Games/AllGames/RemainingGames.swift:38-46 | the search returns a dot within 20 points, or none when there is none |
| PacMan.PacManGame.SpawnDots | ArcadeOS/Games/AllGames/RemainingGames.swift:29-35 | every board dot is added to the set |
| PacMan.InsertDots | ArcadeOS/Games/AllGames/RemainingGames.swift:29-35 | the two nested strides add exactly the board dots to the set |
| PacMan.PacManGame.CheckDots | ArcadeOS/Games/AllGames/RemainingGames.swift:37-47 | if some dot is near, one such dot is removed and 10 scored, otherwise nothing changes; score plus ten per dot is constant |
| PacMan.PacManGame.Drag | ArcadeOS/Games/AllGames/RemainingGames.swift:25-47 | Pac-Man moves to the touch point; if a dot lies within 20 points of it, one such dot is eaten and 10 scored, otherwise nothing changes |
| QBert.Coloured | ArcadeOS/Games/AllGames/RemainingGames.swift:240 | no more coloured cubes than cubes |
| QBert.ColourOne | ArcadeOS/Games/AllGames/RemainingGames.swift:270-273 | colouring an uncoloured cube adds one; a coloured cube adds nothing |
| QBert.QBertGame.Move | ArcadeOS/Games/AllGames/RemainingGames.swift:266-275 | a target off 0..<28 changes nothing; otherwise Q\*bert lands, the cube is coloured, and 10 is scored if it was new; the score stays 10 per coloured cube |
| Sokoban.FirstIndex | ArcadeOS/Games/AllGames/RemainingGames.swift:397 | no index exactly when no box is there; otherwise the first box on that cell |
| Sokoban.PushKeepsBoxes | ArcadeOS/Games/AllGames/RemainingGames.swift:398-401 | moving one box to a free cell keeps the boxes on the board, apart and as many, and moves no other box |
| Sokoban.PushMovesOnlyTarget | ArcadeOS/Games/AllGames/RemainingGames.swift:398-401 | the pushed box alone moves, and no box is left on the cell the player steps onto |
| Sokoban.SokobanGame.Move | ArcadeOS/Games/AllGames/RemainingGames.swift:393-409 | a step off the board or a blocked push changes nothing; otherwise the player steps, the pushed box moves one further, and the moves count grows by 1; the player never stands on a box |

## Left out

- Persistence of the access map (UserDefaults and JSON) is foreign I/O; the manager starts from an empty map.
- `print`, the `shared` singleton and `@Published` wiring are not modelled.
- Dates are integer seconds and `now` is a parameter. `DateFormatter` and `Calendar` become a calendar value
  that maps an instant to a day key and to the start of the next day.
- StoreKit, rewarded ads and audio are foreign SDK calls and are not modelled.
- SwiftUI bodies are not modelled: layout, colours, fonts, `RetroButton` and `WindowFrame`. The only exceptions
  are the paywall's ad section and the gesture and button handlers that call the modelled operations.
- `Color(hex:)` ends in `Double(x) / 255` and a `Color`. The model stops at the integer channels.
- HexColor.TrimLeading / HexColor.TrimTrailing / HexColor.HexChannels: alphanumeric means ASCII letters and
  digits, and the length is counted in characters, not grapheme clusters. Swift keeps Unicode letters and digits
  such as 'é' and counts graphemes, so "ÿfff" differs; every colour the theme passes is an ASCII literal.
- Timers and delayed callbacks (`Timer.publish`, `asyncAfter`) are modelled as separate methods that the caller
  invokes, e.g. `ClearFlipped`, `SequenceShown`, `Despawn` and `Tick`. The model does not capture their timing
  or interleaving.
- Every random draw is a parameter: the chosen tile, the shuffled deck, a mine draw, the new gem kinds, a food
  cell, a piece's shape and colour. The retry loops for mines and food are modelled over a sequence of draws.
  They require that the sequence holds enough free draws, and the model does not prove that the loops terminate.
- Tetris.TetrisGame.RotatePiece: uses the corrected quarter turn (`Tetris.Rotate`), not the source's n×n
  rotation. The source's rotation is kept as `Tetris.RotateAsWritten` (see Findings).
- Tetris.TetrisGame.ClearLines: clears every full row, as intended. The source's sweep is kept as
  `Tetris.SweepAsWritten` (see Findings).
- Tetris: colours are the seven palette values; how `Color` renders them is not modelled.
- Minesweeper.Flood: the source's recursive `revealCell` works on the view state. The model runs the same
  recursion over board values (`revealed` in, `revealed` out) and the class assigns the result. The order in
  which the recursion calls `checkWin` is folded into one win flag.
- Minesweeper.Flood / Minesweeper.MinesweeperGame.RevealCell: each newly revealed cell other than the tapped one is
  next to a newly revealed cell with no mine near it; that this chain of cells leads back to the tapped cell is not
  stated.
- Match-3: `matched` is a set of "r,c" strings. The model keeps it as a set of (row, column) pairs, since the
  round trip of that text is the one proved for Pac-Man. The random kinds `fillGrid` draws are an input board.
- Pac-Man: positions are CGFloat. The model uses real numbers and compares squared distances, so floating-point
  rounding of `hypot` is not modelled. Set iteration order in `checkDots` is unspecified; the model lets any
  near dot be the one eaten.
- Q\*bert: the drawn layout (`sqrt`, positions) is not modelled, and neither is the wrap from one row to the
  next that a ±1 move allows.
- Sokoban: the targets are only drawn and nothing checks for a win, so the model keeps them as a constant that
  no operation reads.
- Simon.SimonGame.ButtonTapped: uses the guarded tap (`Simon.Tap`). The tap that the source lets read past the
  end of the sequence is kept as `Simon.TapAsWritten` (see Findings).
- Float physics games (Pong, Breakout, Flappy Bird, Invaders, Asteroids, Galaga, Frogger, Dig Dug, Missile
  Command, Defender, Centipede, Donkey Kong, Jump Man, Runner, Tower Defense, Reaction) are not part of this
  model.
- The desktop, window manager, settings, boot screen and placeholder views are UI only.

## Findings

| source | as written | input that shows it | evidently intended | confidence | as-written member | corrected member |
|---|---|---|---|---|---|---|
| ArcadeOS/Games/Tetris/TetrisGameView.swift:178-187 | `rotate` builds an n×n matrix with n = the number of rows, so the columns past n are dropped | the I piece `[[true, true, true, true]]` rotates to `[[true]]`, losing three of its four blocks | a quarter turn: rows×cols becomes cols×rows and keeps every block | high, not executed | Tetris.RotateAsWritten, Tetris.RotateAsWrittenLosesBlocks | Tetris.Rotate, Tetris.RotateShape, Tetris.RotateFourTimes, Tetris.RotateBlocks |
| ArcadeOS/Games/Tetris/TetrisGameView.swift:150-156 | after removing full row r, the loop moves to r - 1, which now holds the row that was at r - 2; the row that slid into r is never checked | rows 18 and 19 both full: row 19 is removed, the old row 18 slides to 19 and stays full | every full row is removed and counted | high, not executed | Tetris.SweepAsWritten, Tetris.SweepAsWrittenLeavesFullRow | Tetris.ClearRows, Tetris.ClearedMeaning |
| ArcadeOS/Games/CasualGames/CasualGames.swift:313-334 | a tap after the round is complete, but before the delayed `addToSequence`, appends to the input and reads `sequence[playerInput.count - 1]` past the end | sequence [2], input [2], then any tap: the index is 1 in a one-element array | a tap with nothing left to repeat is ignored | medium, not executed | Simon.TapAsWritten, Simon.ExtraTapReadsPastEnd | Simon.Tap, Simon.TapFollowsSequence, Simon.TapAgreesInsideSequence |
