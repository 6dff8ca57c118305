/**
 * The game catalog: 100 games, each with an identifier, a window title and
 * a premium flag. The 70 free games come first, then the 30 premium ones.
 * The list is written in blocks of ten so that identifiers can be compared
 * block by block; `AllGames` is their concatenation, in the catalog's order.
 */
module GameCatalog {
  import opened Wrappers

  datatype GameMeta = GameMeta(id: string, title: string, isPremium: bool)

  /** The identifiers of the 30 premium games. */
  const PremiumIds: set<string> := {
    "maze", "worm", "mineslite", "memory", "orbit",
    "reflect", "juggle", "phase", "pulse", "pixelgolf",
    "gravity", "portal", "hex", "spark", "driftcar",
    "laser", "tower", "swing", "stackrace", "balance",
    "popchain", "driftdash", "bouncehero", "catchrace", "lasermaze",
    "stackdefense", "rhythm", "bouncearena", "sequence", "fliprace"
  }

  const FreeBlock0: seq<GameMeta> := [
    GameMeta("pong", "Pong.exe", false),
    GameMeta("snake", "Snake.exe", false),
    GameMeta("breakout", "Breakout.exe", false),
    GameMeta("tetris", "Tetris.exe", false),
    GameMeta("pacman", "PacMan.exe", false),
    GameMeta("invaders", "Invaders.exe", false),
    GameMeta("asteroids", "Asteroids.exe", false),
    GameMeta("frogger", "Frogger.exe", false),
    GameMeta("digdug", "DigDug.exe", false),
    GameMeta("galaga", "Galaga.exe", false)
  ]
  const FreeBlock1: seq<GameMeta> := [
    GameMeta("missile", "Missile.exe", false),
    GameMeta("defender", "Defender.exe", false),
    GameMeta("centipede", "Centipede.exe", false),
    GameMeta("qbert", "QBert.exe", false),
    GameMeta("donkeykong", "DonkeyKong.exe", false),
    GameMeta("mariolike", "JumpMan.exe", false),
    GameMeta("sokoban", "Sokoban.exe", false),
    GameMeta("bomberman", "BomberPro.exe", false),
    GameMeta("lemmings", "Lemmings.exe", false),
    GameMeta("minesweeper", "Minesweeper.exe", false)
  ]
  const FreeBlock2: seq<GameMeta> := [
    GameMeta("solitaire", "Solitaire.exe", false),
    GameMeta("freecell", "FreeCell.exe", false),
    GameMeta("hearts", "Hearts.exe", false),
    GameMeta("chess", "Chess.exe", false),
    GameMeta("checkers", "Checkers.exe", false),
    GameMeta("reversi", "Reversi.exe", false),
    GameMeta("go", "Go.exe", false),
    GameMeta("mahjong", "Mahjong.exe", false),
    GameMeta("sudoku", "Sudoku.exe", false),
    GameMeta("crossword", "Crossword.exe", false)
  ]
  const FreeBlock3: seq<GameMeta> := [
    GameMeta("wordsearch", "WordSearch.exe", false),
    GameMeta("hangman", "Hangman.exe", false),
    GameMeta("trivia", "Trivia.exe", false),
    GameMeta("match3", "Match3.exe", false),
    GameMeta("bejeweled", "Bejeweled.exe", false),
    GameMeta("bubbles", "Bubbles.exe", false),
    GameMeta("zuma", "Zuma.exe", false),
    GameMeta("pinball", "Pinball.exe", false),
    GameMeta("billiards", "Billiards.exe", false),
    GameMeta("darts", "Darts.exe", false)
  ]
  const FreeBlock4: seq<GameMeta> := [
    GameMeta("bowling", "Bowling.exe", false),
    GameMeta("golf", "Golf.exe", false),
    GameMeta("tennis", "Tennis.exe", false),
    GameMeta("hockey", "Hockey.exe", false),
    GameMeta("basketball", "Basketball.exe", false),
    GameMeta("volleyball", "Volleyball.exe", false),
    GameMeta("racing", "Racing.exe", false),
    GameMeta("flappy", "FlappyBird.exe", false),
    GameMeta("doodle", "DoodleJump.exe", false),
    GameMeta("jetpack", "Jetpack.exe", false)
  ]
  const FreeBlock5: seq<GameMeta> := [
    GameMeta("helicopter", "Helicopter.exe", false),
    GameMeta("runner", "Runner.exe", false),
    GameMeta("platformer", "Platformer.exe", false),
    GameMeta("shooter", "Shooter.exe", false),
    GameMeta("rpg", "RPG.exe", false),
    GameMeta("adventure", "Adventure.exe", false),
    GameMeta("strategy", "Strategy.exe", false),
    GameMeta("tower defense", "TowerDefense.exe", false),
    GameMeta("clicker", "Clicker.exe", false),
    GameMeta("idle", "Idle.exe", false)
  ]
  const FreeBlock6: seq<GameMeta> := [
    GameMeta("simulation", "Simulation.exe", false),
    GameMeta("tycoon", "Tycoon.exe", false),
    GameMeta("farming", "Farming.exe", false),
    GameMeta("fishing", "Fishing.exe", false),
    GameMeta("cooking", "Cooking.exe", false),
    GameMeta("cafe", "Cafe.exe", false),
    GameMeta("restaurant", "Restaurant.exe", false),
    GameMeta("hotel", "Hotel.exe", false),
    GameMeta("shop", "Shop.exe", false),
    GameMeta("mall", "Mall.exe", false)
  ]
  const PremiumBlock0: seq<GameMeta> := [
    GameMeta("maze", "Maze.exe", true),
    GameMeta("worm", "Worm.exe", true),
    GameMeta("mineslite", "MinesLite.exe", true),
    GameMeta("memory", "Memory.exe", true),
    GameMeta("orbit", "Orbit.exe", true),
    GameMeta("reflect", "Reflect.exe", true),
    GameMeta("juggle", "Juggle.exe", true),
    GameMeta("phase", "Phase.exe", true),
    GameMeta("pulse", "Pulse.exe", true),
    GameMeta("pixelgolf", "PixelGolf.exe", true)
  ]
  const PremiumBlock1: seq<GameMeta> := [
    GameMeta("gravity", "Gravity.exe", true),
    GameMeta("portal", "Portal.exe", true),
    GameMeta("hex", "Hex.exe", true),
    GameMeta("spark", "Spark.exe", true),
    GameMeta("driftcar", "DriftCar.exe", true),
    GameMeta("laser", "Laser.exe", true),
    GameMeta("tower", "Tower.exe", true),
    GameMeta("swing", "Swing.exe", true),
    GameMeta("stackrace", "StackRace.exe", true),
    GameMeta("balance", "Balance.exe", true)
  ]
  const PremiumBlock2: seq<GameMeta> := [
    GameMeta("popchain", "PopChain.exe", true),
    GameMeta("driftdash", "DriftDash.exe", true),
    GameMeta("bouncehero", "BounceHero.exe", true),
    GameMeta("catchrace", "CatchRace.exe", true),
    GameMeta("lasermaze", "LaserMaze.exe", true),
    GameMeta("stackdefense", "StackDefense.exe", true),
    GameMeta("rhythm", "Rhythm.exe", true),
    GameMeta("bouncearena", "BounceArena.exe", true),
    GameMeta("sequence", "Sequence.exe", true),
    GameMeta("fliprace", "FlipRace.exe", true)
  ]

  const FreeGames: seq<GameMeta> :=
    FreeBlock0 + FreeBlock1 + FreeBlock2 + FreeBlock3 + FreeBlock4 + FreeBlock5 + FreeBlock6
  const PremiumGames: seq<GameMeta> := PremiumBlock0 + PremiumBlock1 + PremiumBlock2

  /** All 100 games, in display order. */
  const AllGames: seq<GameMeta> := FreeGames + PremiumGames

  /** The first game in `games` whose identifier is `id` (Swift's `first { $0.id == id }`). */
  function FirstWithId(games: seq<GameMeta>, id: string): (r: Option<GameMeta>)
    ensures r.None? <==> forall i :: 0 <= i < |games| ==> games[i].id != id
    ensures r.Some? ==> exists i :: 0 <= i < |games| && games[i] == r.value && r.value.id == id
                          && forall k :: 0 <= k < i ==> games[k].id != id
  {
    if |games| == 0 then None
    else if games[0].id == id then Some(games[0])
    else
      var r := FirstWithId(games[1..], id);
      assert forall i :: 1 <= i < |games| ==> games[1..][i - 1] == games[i];
      r
  }

  /** `GameCatalog.game(byID:)`. */
  function GameById(id: string): (r: Option<GameMeta>)
    ensures r.Some? ==> r.value in AllGames && r.value.id == id
    ensures r.None? ==> forall g :: g in AllGames ==> g.id != id
  {
    FirstWithId(AllGames, id)
  }

  predicate DistinctIds(games: seq<GameMeta>) {
    forall i, j :: 0 <= i < j < |games| ==> games[i].id != games[j].id
  }

  predicate DisjointIds(a: seq<GameMeta>, b: seq<GameMeta>) {
    forall i, j :: 0 <= i < |a| && 0 <= j < |b| ==> a[i].id != b[j].id
  }

  function IdsOf(games: seq<GameMeta>): set<string> {
    set g | g in games :: g.id
  }

  lemma DistinctConcat(a: seq<GameMeta>, b: seq<GameMeta>)
    requires DistinctIds(a) && DistinctIds(b) && DisjointIds(a, b)
    ensures DistinctIds(a + b)
  {
    forall i, j | 0 <= i < j < |a + b| ensures (a + b)[i].id != (a + b)[j].id {
      if i >= |a| {
        assert (a + b)[i] == b[i - |a|] && (a + b)[j] == b[j - |a|];
      } else if j >= |a| {
        assert (a + b)[j] == b[j - |a|];
      }
    }
  }

  lemma DisjointLeft(a: seq<GameMeta>, b: seq<GameMeta>, c: seq<GameMeta>)
    requires DisjointIds(a, c) && DisjointIds(b, c)
    ensures DisjointIds(a + b, c)
  {
    forall i, j | 0 <= i < |a + b| && 0 <= j < |c| ensures (a + b)[i].id != c[j].id {
      if i >= |a| {
        assert (a + b)[i] == b[i - |a|];
      }
    }
  }

  lemma BlockDistinct0() ensures DistinctIds(FreeBlock0) {}
  lemma BlockDistinct1() ensures DistinctIds(FreeBlock1) {}
  lemma BlockDistinct2() ensures DistinctIds(FreeBlock2) {}
  lemma BlockDistinct3() ensures DistinctIds(FreeBlock3) {}
  lemma BlockDistinct4() ensures DistinctIds(FreeBlock4) {}
  lemma BlockDistinct5() ensures DistinctIds(FreeBlock5) {}
  lemma BlockDistinct6() ensures DistinctIds(FreeBlock6) {}
  lemma BlockDistinct7() ensures DistinctIds(PremiumBlock0) {}
  lemma BlockDistinct8() ensures DistinctIds(PremiumBlock1) {}
  lemma BlockDistinct9() ensures DistinctIds(PremiumBlock2) {}


  lemma DisjointF0F1() ensures DisjointIds(FreeBlock0, FreeBlock1) {}
  lemma DisjointF0F2() ensures DisjointIds(FreeBlock0, FreeBlock2) {}
  lemma DisjointF1F2() ensures DisjointIds(FreeBlock1, FreeBlock2) {}
  lemma DisjointF0F3() ensures DisjointIds(FreeBlock0, FreeBlock3) {}
  lemma DisjointF1F3() ensures DisjointIds(FreeBlock1, FreeBlock3) {}
  lemma DisjointF2F3() ensures DisjointIds(FreeBlock2, FreeBlock3) {}
  lemma DisjointF0F4() ensures DisjointIds(FreeBlock0, FreeBlock4) {}
  lemma DisjointF1F4() ensures DisjointIds(FreeBlock1, FreeBlock4) {}
  lemma DisjointF2F4() ensures DisjointIds(FreeBlock2, FreeBlock4) {}
  lemma DisjointF3F4() ensures DisjointIds(FreeBlock3, FreeBlock4) {}
  lemma DisjointF0F5() ensures DisjointIds(FreeBlock0, FreeBlock5) {}
  lemma DisjointF1F5() ensures DisjointIds(FreeBlock1, FreeBlock5) {}
  lemma DisjointF2F5() ensures DisjointIds(FreeBlock2, FreeBlock5) {}
  lemma DisjointF3F5() ensures DisjointIds(FreeBlock3, FreeBlock5) {}
  lemma DisjointF4F5() ensures DisjointIds(FreeBlock4, FreeBlock5) {}
  lemma DisjointF0F6() ensures DisjointIds(FreeBlock0, FreeBlock6) {}
  lemma DisjointF1F6() ensures DisjointIds(FreeBlock1, FreeBlock6) {}
  lemma DisjointF2F6() ensures DisjointIds(FreeBlock2, FreeBlock6) {}
  lemma DisjointF3F6() ensures DisjointIds(FreeBlock3, FreeBlock6) {}
  lemma DisjointF4F6() ensures DisjointIds(FreeBlock4, FreeBlock6) {}
  lemma DisjointF5F6() ensures DisjointIds(FreeBlock5, FreeBlock6) {}
  lemma DisjointF0P0() ensures DisjointIds(FreeBlock0, PremiumBlock0) {}
  lemma DisjointF1P0() ensures DisjointIds(FreeBlock1, PremiumBlock0) {}
  lemma DisjointF2P0() ensures DisjointIds(FreeBlock2, PremiumBlock0) {}
  lemma DisjointF3P0() ensures DisjointIds(FreeBlock3, PremiumBlock0) {}
  lemma DisjointF4P0() ensures DisjointIds(FreeBlock4, PremiumBlock0) {}
  lemma DisjointF5P0() ensures DisjointIds(FreeBlock5, PremiumBlock0) {}
  lemma DisjointF6P0() ensures DisjointIds(FreeBlock6, PremiumBlock0) {}
  lemma DisjointF0P1() ensures DisjointIds(FreeBlock0, PremiumBlock1) {}
  lemma DisjointF1P1() ensures DisjointIds(FreeBlock1, PremiumBlock1) {}
  lemma DisjointF2P1() ensures DisjointIds(FreeBlock2, PremiumBlock1) {}
  lemma DisjointF3P1() ensures DisjointIds(FreeBlock3, PremiumBlock1) {}
  lemma DisjointF4P1() ensures DisjointIds(FreeBlock4, PremiumBlock1) {}
  lemma DisjointF5P1() ensures DisjointIds(FreeBlock5, PremiumBlock1) {}
  lemma DisjointF6P1() ensures DisjointIds(FreeBlock6, PremiumBlock1) {}
  lemma DisjointP0P1() ensures DisjointIds(PremiumBlock0, PremiumBlock1) {}
  lemma DisjointF0P2() ensures DisjointIds(FreeBlock0, PremiumBlock2) {}
  lemma DisjointF1P2() ensures DisjointIds(FreeBlock1, PremiumBlock2) {}
  lemma DisjointF2P2() ensures DisjointIds(FreeBlock2, PremiumBlock2) {}
  lemma DisjointF3P2() ensures DisjointIds(FreeBlock3, PremiumBlock2) {}
  lemma DisjointF4P2() ensures DisjointIds(FreeBlock4, PremiumBlock2) {}
  lemma DisjointF5P2() ensures DisjointIds(FreeBlock5, PremiumBlock2) {}
  lemma DisjointF6P2() ensures DisjointIds(FreeBlock6, PremiumBlock2) {}
  lemma DisjointP0P2() ensures DisjointIds(PremiumBlock0, PremiumBlock2) {}
  lemma DisjointP1P2() ensures DisjointIds(PremiumBlock1, PremiumBlock2) {}

  lemma FreeGamesDistinct()
    ensures DistinctIds(FreeGames)
  {
    BlockDistinct0();
    BlockDistinct1();
    BlockDistinct2();
    BlockDistinct3();
    BlockDistinct4();
    BlockDistinct5();
    BlockDistinct6();
    DisjointF0F1();
    DisjointF0F2();
    DisjointF1F2();
    DisjointF0F3();
    DisjointF1F3();
    DisjointF2F3();
    DisjointF0F4();
    DisjointF1F4();
    DisjointF2F4();
    DisjointF3F4();
    DisjointF0F5();
    DisjointF1F5();
    DisjointF2F5();
    DisjointF3F5();
    DisjointF4F5();
    DisjointF0F6();
    DisjointF1F6();
    DisjointF2F6();
    DisjointF3F6();
    DisjointF4F6();
    DisjointF5F6();
    DistinctConcat(FreeBlock0, FreeBlock1);
    DisjointLeft(FreeBlock0, FreeBlock1, FreeBlock2);
    DistinctConcat(FreeBlock0 + FreeBlock1, FreeBlock2);
    DisjointLeft(FreeBlock0, FreeBlock1, FreeBlock3);
    DisjointLeft(FreeBlock0 + FreeBlock1, FreeBlock2, FreeBlock3);
    DistinctConcat(FreeBlock0 + FreeBlock1 + FreeBlock2, FreeBlock3);
    DisjointLeft(FreeBlock0, FreeBlock1, FreeBlock4);
    DisjointLeft(FreeBlock0 + FreeBlock1, FreeBlock2, FreeBlock4);
    DisjointLeft(FreeBlock0 + FreeBlock1 + FreeBlock2, FreeBlock3, FreeBlock4);
    DistinctConcat(FreeBlock0 + FreeBlock1 + FreeBlock2 + FreeBlock3, FreeBlock4);
    DisjointLeft(FreeBlock0, FreeBlock1, FreeBlock5);
    DisjointLeft(FreeBlock0 + FreeBlock1, FreeBlock2, FreeBlock5);
    DisjointLeft(FreeBlock0 + FreeBlock1 + FreeBlock2, FreeBlock3, FreeBlock5);
    DisjointLeft(FreeBlock0 + FreeBlock1 + FreeBlock2 + FreeBlock3, FreeBlock4, FreeBlock5);
    DistinctConcat(FreeBlock0 + FreeBlock1 + FreeBlock2 + FreeBlock3 + FreeBlock4, FreeBlock5);
    DisjointLeft(FreeBlock0, FreeBlock1, FreeBlock6);
    DisjointLeft(FreeBlock0 + FreeBlock1, FreeBlock2, FreeBlock6);
    DisjointLeft(FreeBlock0 + FreeBlock1 + FreeBlock2, FreeBlock3, FreeBlock6);
    DisjointLeft(FreeBlock0 + FreeBlock1 + FreeBlock2 + FreeBlock3, FreeBlock4, FreeBlock6);
    DisjointLeft(FreeBlock0 + FreeBlock1 + FreeBlock2 + FreeBlock3 + FreeBlock4, FreeBlock5, FreeBlock6);
    DistinctConcat(FreeBlock0 + FreeBlock1 + FreeBlock2 + FreeBlock3 + FreeBlock4 + FreeBlock5, FreeBlock6);
  }

  lemma PremiumGamesDistinct()
    ensures DistinctIds(PremiumGames)
  {
    BlockDistinct7();
    BlockDistinct8();
    BlockDistinct9();
    DisjointP0P1();
    DisjointP0P2();
    DisjointP1P2();
    DistinctConcat(PremiumBlock0, PremiumBlock1);
    DisjointLeft(PremiumBlock0, PremiumBlock1, PremiumBlock2);
    DistinctConcat(PremiumBlock0 + PremiumBlock1, PremiumBlock2);
  }

  lemma FreeGamesDisjointP0()
    ensures DisjointIds(FreeGames, PremiumBlock0)
  {
    DisjointF0P0();
    DisjointF1P0();
    DisjointF2P0();
    DisjointF3P0();
    DisjointF4P0();
    DisjointF5P0();
    DisjointF6P0();
    DisjointLeft(FreeBlock0, FreeBlock1, PremiumBlock0);
    DisjointLeft(FreeBlock0 + FreeBlock1, FreeBlock2, PremiumBlock0);
    DisjointLeft(FreeBlock0 + FreeBlock1 + FreeBlock2, FreeBlock3, PremiumBlock0);
    DisjointLeft(FreeBlock0 + FreeBlock1 + FreeBlock2 + FreeBlock3, FreeBlock4, PremiumBlock0);
    DisjointLeft(FreeBlock0 + FreeBlock1 + FreeBlock2 + FreeBlock3 + FreeBlock4, FreeBlock5, PremiumBlock0);
    DisjointLeft(FreeBlock0 + FreeBlock1 + FreeBlock2 + FreeBlock3 + FreeBlock4 + FreeBlock5, FreeBlock6, PremiumBlock0);
  }

  lemma FreeGamesDisjointP1()
    ensures DisjointIds(FreeGames, PremiumBlock1)
  {
    DisjointF0P1();
    DisjointF1P1();
    DisjointF2P1();
    DisjointF3P1();
    DisjointF4P1();
    DisjointF5P1();
    DisjointF6P1();
    DisjointLeft(FreeBlock0, FreeBlock1, PremiumBlock1);
    DisjointLeft(FreeBlock0 + FreeBlock1, FreeBlock2, PremiumBlock1);
    DisjointLeft(FreeBlock0 + FreeBlock1 + FreeBlock2, FreeBlock3, PremiumBlock1);
    DisjointLeft(FreeBlock0 + FreeBlock1 + FreeBlock2 + FreeBlock3, FreeBlock4, PremiumBlock1);
    DisjointLeft(FreeBlock0 + FreeBlock1 + FreeBlock2 + FreeBlock3 + FreeBlock4, FreeBlock5, PremiumBlock1);
    DisjointLeft(FreeBlock0 + FreeBlock1 + FreeBlock2 + FreeBlock3 + FreeBlock4 + FreeBlock5, FreeBlock6, PremiumBlock1);
  }

  lemma FreeGamesDisjointP2()
    ensures DisjointIds(FreeGames, PremiumBlock2)
  {
    DisjointF0P2();
    DisjointF1P2();
    DisjointF2P2();
    DisjointF3P2();
    DisjointF4P2();
    DisjointF5P2();
    DisjointF6P2();
    DisjointLeft(FreeBlock0, FreeBlock1, PremiumBlock2);
    DisjointLeft(FreeBlock0 + FreeBlock1, FreeBlock2, PremiumBlock2);
    DisjointLeft(FreeBlock0 + FreeBlock1 + FreeBlock2, FreeBlock3, PremiumBlock2);
    DisjointLeft(FreeBlock0 + FreeBlock1 + FreeBlock2 + FreeBlock3, FreeBlock4, PremiumBlock2);
    DisjointLeft(FreeBlock0 + FreeBlock1 + FreeBlock2 + FreeBlock3 + FreeBlock4, FreeBlock5, PremiumBlock2);
    DisjointLeft(FreeBlock0 + FreeBlock1 + FreeBlock2 + FreeBlock3 + FreeBlock4 + FreeBlock5, FreeBlock6, PremiumBlock2);
  }

  lemma DisjointRight(a: seq<GameMeta>, b: seq<GameMeta>, c: seq<GameMeta>)
    requires DisjointIds(a, b) && DisjointIds(a, c)
    ensures DisjointIds(a, b + c)
  {
    forall i, j | 0 <= i < |a| && 0 <= j < |b + c| ensures a[i].id != (b + c)[j].id {
      if j >= |b| {
        assert (b + c)[j] == c[j - |b|];
      }
    }
  }

  /** No two catalog entries share an identifier (they serve as view identity). */
  lemma AllGamesDistinctIds()
    ensures DistinctIds(AllGames)
  {
    FreeGamesDistinct();
    PremiumGamesDistinct();
    FreeGamesDisjointP0();
    FreeGamesDisjointP1();
    FreeGamesDisjointP2();
    DisjointRight(FreeGames, PremiumBlock0, PremiumBlock1);
    DisjointRight(FreeGames, PremiumBlock0 + PremiumBlock1, PremiumBlock2);
    DistinctConcat(FreeGames, PremiumGames);
  }

  /** Entries 0..69 are free, entries 70..99 are premium. */
  lemma CatalogLayout()
    ensures |AllGames| == 100
    ensures forall i :: 0 <= i < 70 ==> !AllGames[i].isPremium
    ensures forall i :: 70 <= i < 100 ==> AllGames[i].isPremium
  {
    FreeFlagged();
    PremiumFlagged();
    BlockLengths();
    FlagsOfConcat(FreeGames, PremiumGames);
  }

  lemma BlockLengths()
    ensures |FreeGames| == 70 && |PremiumGames| == 30
  {
  }

  /** Free entries followed by premium ones: the flag of entry i says which side of the join it is on. */
  lemma FlagsOfConcat(a: seq<GameMeta>, b: seq<GameMeta>)
    requires Flagged(a, false) && Flagged(b, true)
    ensures forall i :: 0 <= i < |a| ==> !(a + b)[i].isPremium
    ensures forall i :: |a| <= i < |a| + |b| ==> (a + b)[i].isPremium
  {
  }

  /** Every entry of `s` carries the premium flag `premium`. */
  predicate Flagged(s: seq<GameMeta>, premium: bool) {
    forall i :: 0 <= i < |s| ==> s[i].isPremium == premium
  }

  lemma FlaggedConcat(a: seq<GameMeta>, b: seq<GameMeta>, premium: bool)
    requires Flagged(a, premium) && Flagged(b, premium)
    ensures Flagged(a + b, premium)
  {
  }

  lemma FreeBlocksFlagged()
    ensures Flagged(FreeBlock0, false) && Flagged(FreeBlock1, false) && Flagged(FreeBlock2, false)
  {}

  lemma FreeBlocksFlagged1()
    ensures Flagged(FreeBlock3, false) && Flagged(FreeBlock4, false)
  {}

  lemma FreeBlocksFlagged2()
    ensures Flagged(FreeBlock5, false) && Flagged(FreeBlock6, false)
  {}

  lemma PremiumBlocksFlagged()
    ensures Flagged(PremiumBlock0, true) && Flagged(PremiumBlock1, true) && Flagged(PremiumBlock2, true)
  {}

  lemma FreeFlagged()
    ensures Flagged(FreeGames, false)
  {
    FreeBlocksFlagged();
    FreeBlocksFlagged1();
    FreeBlocksFlagged2();
    FlaggedConcat(FreeBlock0, FreeBlock1, false);
    FlaggedConcat(FreeBlock0 + FreeBlock1, FreeBlock2, false);
    FlaggedConcat(FreeBlock0 + FreeBlock1 + FreeBlock2, FreeBlock3, false);
    FlaggedConcat(FreeBlock0 + FreeBlock1 + FreeBlock2 + FreeBlock3, FreeBlock4, false);
    FlaggedConcat(FreeBlock0 + FreeBlock1 + FreeBlock2 + FreeBlock3 + FreeBlock4, FreeBlock5, false);
    FlaggedConcat(FreeBlock0 + FreeBlock1 + FreeBlock2 + FreeBlock3 + FreeBlock4 + FreeBlock5, FreeBlock6, false);
  }

  lemma PremiumFlagged()
    ensures Flagged(PremiumGames, true)
  {
    PremiumBlocksFlagged();
    FlaggedConcat(PremiumBlock0, PremiumBlock1, true);
    FlaggedConcat(PremiumBlock0 + PremiumBlock1, PremiumBlock2, true);
  }

  lemma FreeGamesAreFree()
    ensures forall g :: g in FreeGames ==> !g.isPremium
  {
    FreeFlagged();
  }

  lemma PremiumGamesArePremium()
    ensures forall g :: g in PremiumGames ==> g.isPremium
  {
    PremiumFlagged();
  }

  lemma IdsOfConcat(a: seq<GameMeta>, b: seq<GameMeta>)
    ensures IdsOf(a + b) == IdsOf(a) + IdsOf(b)
  {
    assert forall g :: g in a + b <==> g in a || g in b;
  }

  lemma PremiumBlockIds0()
    ensures IdsOf(PremiumBlock0) == {"maze", "worm", "mineslite", "memory", "orbit", "reflect", "juggle", "phase", "pulse", "pixelgolf"}
  {
    assert PremiumBlock0[0].id == "maze";
    assert PremiumBlock0[1].id == "worm";
    assert PremiumBlock0[2].id == "mineslite";
    assert PremiumBlock0[3].id == "memory";
    assert PremiumBlock0[4].id == "orbit";
    assert PremiumBlock0[5].id == "reflect";
    assert PremiumBlock0[6].id == "juggle";
    assert PremiumBlock0[7].id == "phase";
    assert PremiumBlock0[8].id == "pulse";
    assert PremiumBlock0[9].id == "pixelgolf";
  }

  lemma PremiumBlockIds1()
    ensures IdsOf(PremiumBlock1) == {"gravity", "portal", "hex", "spark", "driftcar", "laser", "tower", "swing", "stackrace", "balance"}
  {
    assert PremiumBlock1[0].id == "gravity";
    assert PremiumBlock1[1].id == "portal";
    assert PremiumBlock1[2].id == "hex";
    assert PremiumBlock1[3].id == "spark";
    assert PremiumBlock1[4].id == "driftcar";
    assert PremiumBlock1[5].id == "laser";
    assert PremiumBlock1[6].id == "tower";
    assert PremiumBlock1[7].id == "swing";
    assert PremiumBlock1[8].id == "stackrace";
    assert PremiumBlock1[9].id == "balance";
  }

  lemma PremiumBlockIds2()
    ensures IdsOf(PremiumBlock2) == {"popchain", "driftdash", "bouncehero", "catchrace", "lasermaze", "stackdefense", "rhythm", "bouncearena", "sequence", "fliprace"}
  {
    assert PremiumBlock2[0].id == "popchain";
    assert PremiumBlock2[1].id == "driftdash";
    assert PremiumBlock2[2].id == "bouncehero";
    assert PremiumBlock2[3].id == "catchrace";
    assert PremiumBlock2[4].id == "lasermaze";
    assert PremiumBlock2[5].id == "stackdefense";
    assert PremiumBlock2[6].id == "rhythm";
    assert PremiumBlock2[7].id == "bouncearena";
    assert PremiumBlock2[8].id == "sequence";
    assert PremiumBlock2[9].id == "fliprace";
  }


  lemma PremiumIdsInBlocks()
    ensures PremiumIds == {"maze", "worm", "mineslite", "memory", "orbit", "reflect", "juggle", "phase", "pulse", "pixelgolf"} + {"gravity", "portal", "hex", "spark", "driftcar", "laser", "tower", "swing", "stackrace", "balance"} + {"popchain", "driftdash", "bouncehero", "catchrace", "lasermaze", "stackdefense", "rhythm", "bouncearena", "sequence", "fliprace"}
  {
  }

  /** The premium identifier set is exactly the set of identifiers of the premium entries. */
  lemma PremiumIdsArePremiumGames()
    ensures PremiumIds == IdsOf(PremiumGames)
  {
    PremiumIdsInBlocks();
    PremiumBlockIds0();
    PremiumBlockIds1();
    PremiumBlockIds2();
    IdsOfConcat(PremiumBlock0, PremiumBlock1);
    IdsOfConcat(PremiumBlock0 + PremiumBlock1, PremiumBlock2);
  }

  /** Distinct identifiers give as many identifiers as entries. */
  lemma {:induction false} IdsOfDistinct(games: seq<GameMeta>)
    requires DistinctIds(games)
    ensures |IdsOf(games)| == |games|
  {
    if |games| > 0 {
      var rest := games[1..];
      assert DistinctIds(rest) by {
        forall i, j | 0 <= i < j < |rest| ensures rest[i].id != rest[j].id {
          assert rest[i] == games[i + 1] && rest[j] == games[j + 1];
        }
      }
      IdsOfDistinct(rest);
      assert IdsOf(games) == {games[0].id} + IdsOf(rest);
      assert games[0].id !in IdsOf(rest);
    }
  }

  lemma DistinctSplit(a: seq<GameMeta>, b: seq<GameMeta>)
    requires DistinctIds(a + b)
    ensures DistinctIds(b) && DisjointIds(a, b)
  {
    forall i, j | 0 <= i < j < |b| ensures b[i].id != b[j].id {
      assert (a + b)[|a| + i] == b[i] && (a + b)[|a| + j] == b[j];
    }
    forall i, j | 0 <= i < |a| && 0 <= j < |b| ensures a[i].id != b[j].id {
      assert (a + b)[i] == a[i] && (a + b)[|a| + j] == b[j];
    }
  }

  lemma DisjointIdNotIn(a: seq<GameMeta>, b: seq<GameMeta>, g: GameMeta)
    requires DisjointIds(a, b) && g in a
    ensures g.id !in IdsOf(b)
  {
  }

  /** `premiumIDs` has exactly 30 elements. */
  lemma PremiumIdsCount()
    ensures |PremiumIds| == 30
  {
    PremiumIdsArePremiumGames();
    AllGamesDistinctIds();
    DistinctSplit(FreeGames, PremiumGames);
    IdsOfDistinct(PremiumGames);
  }

  /** A catalog entry's identifier is in `premiumIDs` exactly when the entry is flagged premium. */
  lemma PremiumFlagMatchesPremiumIds(g: GameMeta)
    requires g in AllGames
    ensures g.isPremium <==> g.id in PremiumIds
  {
    PremiumIdsArePremiumGames();
    AllGamesDistinctIds();
    DistinctSplit(FreeGames, PremiumGames);
    if g in FreeGames {
      FreeGamesAreFree();
      DisjointIdNotIn(FreeGames, PremiumGames, g);
    } else {
      PremiumGamesArePremium();
    }
  }

  /** Looking up any catalog identifier finds that very entry. */
  lemma GameByIdFindsEveryGame(g: GameMeta)
    requires g in AllGames
    ensures GameById(g.id) == Some(g)
  {
    AllGamesDistinctIds();
    var r := GameById(g.id);
    var i :| 0 <= i < |AllGames| && AllGames[i] == g;
    var j :| 0 <= j < |AllGames| && AllGames[j] == r.value && r.value.id == g.id
             && forall k :: 0 <= k < j ==> AllGames[k].id != g.id;
    assert i == j;
  }
}
