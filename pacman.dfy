/**
 * Pac-Man's dots.  Each dot is kept in a set of strings "x,y": the
 * coordinates are written by string interpolation and read back by
 * splitting on "," and parsing each part as an Int.  A drag moves Pac-Man
 * and eats at most one dot closer than 20 points.
 */
module PacMan {
  import opened Wrappers
  import opened Decimal

  const Separator := ','
  const Columns := 14
  const RowsOfDots := 17
  const DotCount := 238
  const Reach := 20
  const PointsPerDot := 10

  /** Length of the leading stretch of s that holds no sep. */
  function Run(s: string, sep: char): (n: nat)
    ensures n <= |s|
    ensures forall i :: 0 <= i < n ==> s[i] != sep
    ensures n < |s| ==> s[n] == sep
  {
    if |s| == 0 || s[0] == sep then 0 else 1 + Run(s[1..], sep)
  }

  /**
   * Swift's `split(separator:)` with its default of omitting empty pieces:
   * the maximal stretches of s free of sep, in order.
   */
  function Split(s: string, sep: char): seq<string>
    decreases |s|
  {
    if |s| == 0 then []
    else if s[0] == sep then Split(s[1..], sep)
    else
      var n := Run(s, sep);
      [s[..n]] + Split(s[n..], sep)
  }

  /** Every piece is non-empty and free of the separator. */
  lemma {:induction false} SplitPieces(s: string, sep: char)
    ensures forall k :: 0 <= k < |Split(s, sep)| ==> |Split(s, sep)[k]| > 0 && sep !in Split(s, sep)[k]
    decreases |s|
  {
    if |s| == 0 {
    } else if s[0] == sep {
      SplitPieces(s[1..], sep);
    } else {
      var n := Run(s, sep);
      SplitPieces(s[n..], sep);
      assert Split(s, sep) == [s[..n]] + Split(s[n..], sep);
    }
  }

  /** A non-empty separator-free string is one piece. */
  lemma SplitPlain(b: string, sep: char)
    requires |b| > 0 && sep !in b
    ensures Split(b, sep) == [b]
  {
    RunStops(b, sep, |b|);
    assert b[..|b|] == b;
    assert b[|b|..] == [];
  }

  /** Two non-empty separator-free strings joined by the separator split back into the two. */
  lemma SplitJoined(a: string, b: string, sep: char)
    requires |a| > 0 && |b| > 0 && sep !in a && sep !in b
    ensures Split(a + [sep] + b, sep) == [a, b]
  {
    var s := a + [sep] + b;
    RunStops(s, sep, |a|);
    assert s[0] == a[0] && s[..|a|] == a;
    assert Split(s, sep) == [a] + Split(s[|a|..], sep);
    var t := s[|a|..];
    assert t[0] == sep && t[1..] == b;
    assert Split(t, sep) == Split(b, sep);
    SplitPlain(b, sep);
  }

  /** The stretch before the first separator at or after position n. */
  lemma {:induction false} RunStops(s: string, sep: char, n: nat)
    requires n <= |s| && (forall i :: 0 <= i < n ==> s[i] != sep) && (n < |s| ==> s[n] == sep)
    ensures Run(s, sep) == n
    decreases n
  {
    if n > 0 {
      RunStops(s[1..], sep, n - 1);
    }
  }

  /** How a dot is written: "\(x),\(y)". */
  function Encode(x: nat, y: nat): string {
    NatToString(x) + [Separator] + NatToString(y)
  }

  /**
   * How a dot is read: split on ",", parse the first two parts with
   * `Int(_:)`.  Where Swift would trap on a missing part or a failed
   * parse, the result is None.
   */
  function Decode(dot: string): Option<(int, int)> {
    var parts := Split(dot, Separator);
    if |parts| < 2 then None
    else match (ParseInt(parts[0]), ParseInt(parts[1]))
      case (Some(x), Some(y)) => Some((x, y))
      case _ => None
  }

  /** Reading a written dot gives back its coordinates, each a value of Swift's `Int`. */
  lemma DecodeEncode(x: nat, y: nat)
    requires x <= IntMax && y <= IntMax
    ensures Decode(Encode(x, y)) == Some((x, y))
  {
    NatToStringDigits(x);
    NatToStringDigits(y);
    NatToStringHasNoComma(x);
    NatToStringHasNoComma(y);
    SplitJoined(NatToString(x), NatToString(y), Separator);
    NatToStringRoundTrip(x);
    NatToStringRoundTrip(y);
  }

  /** Different dots are written differently. */
  lemma EncodeInjective(x: nat, y: nat, x': nat, y': nat)
    requires Encode(x, y) == Encode(x', y')
    ensures x == x' && y == y'
  {
    NatToStringDigits(x);
    NatToStringDigits(y);
    NatToStringDigits(x');
    NatToStringDigits(y');
    NatToStringHasNoComma(x);
    NatToStringHasNoComma(y);
    NatToStringHasNoComma(x');
    NatToStringHasNoComma(y');
    SplitJoined(NatToString(x), NatToString(y), Separator);
    SplitJoined(NatToString(x'), NatToString(y'), Separator);
    NatToStringInjective(x, x');
    NatToStringInjective(y, y');
  }

  /** The k-th dot `spawnDots` writes: columns 50, 80, … outside, rows 50, 80, … inside. */
  function DotAt(k: nat): (nat, nat) {
    (50 + 30 * (k / RowsOfDots), 50 + 30 * (k % RowsOfDots))
  }

  /** A dot position of the board: x in 50, 80, …, 440 and y in 50, 80, …, 530. */
  predicate DotCell(x: int, y: int) {
    50 <= x < 450 && (x - 50) % 30 == 0 && 50 <= y < 550 && (y - 50) % 30 == 0
  }

  /** The first n dots written. */
  function DotsUpTo(n: nat): set<string> {
    set k | 0 <= k < n :: Encode(DotAt(k).0, DotAt(k).1)
  }

  /** Every dot written by `spawnDots`. */
  function AllDots(): set<string> {
    DotsUpTo(DotCount)
  }

  lemma DotAtGrid(i: nat, j: nat)
    requires j < RowsOfDots
    ensures DotAt(RowsOfDots * i + j) == (50 + 30 * i, 50 + 30 * j)
  {
    var k := RowsOfDots * i + j;
    assert k / RowsOfDots == i && k % RowsOfDots == j by {
      DivModUnique(k, i, j);
    }
  }

  lemma DivModUnique(k: nat, q: nat, r: nat)
    requires r < RowsOfDots && k == RowsOfDots * q + r
    ensures k / RowsOfDots == q && k % RowsOfDots == r
  {
  }

  lemma DotAtInjective(k: nat, m: nat)
    requires DotAt(k) == DotAt(m)
    ensures k == m
  {
    assert k / RowsOfDots == m / RowsOfDots && k % RowsOfDots == m % RowsOfDots;
  }

  lemma DotsUpToStep(n: nat)
    ensures DotsUpTo(n + 1) == DotsUpTo(n) + {Encode(DotAt(n).0, DotAt(n).1)}
    ensures Encode(DotAt(n).0, DotAt(n).1) !in DotsUpTo(n)
  {
    var e := Encode(DotAt(n).0, DotAt(n).1);
    if e in DotsUpTo(n) {
      var k :| 0 <= k < n && e == Encode(DotAt(k).0, DotAt(k).1);
      EncodeInjective(DotAt(k).0, DotAt(k).1, DotAt(n).0, DotAt(n).1);
      DotAtInjective(k, n);
    }
  }

  /** The first n dots are n different strings. */
  lemma {:induction false} DotsUpToCount(n: nat)
    ensures |DotsUpTo(n)| == n
  {
    if n == 0 {
      assert DotsUpTo(0) == {};
    } else {
      DotsUpToCount(n - 1);
      DotsUpToStep(n - 1);
    }
  }

  /** `spawnDots` writes 14 × 17 = 238 different dots. */
  lemma AllDotsCount()
    ensures |AllDots()| == Columns * RowsOfDots == DotCount
  {
    DotsUpToCount(DotCount);
  }

  lemma WrittenIsDotCell(x: nat, y: nat)
    requires Encode(x, y) in AllDots()
    ensures DotCell(x, y)
  {
    var k :| 0 <= k < DotCount && Encode(x, y) == Encode(DotAt(k).0, DotAt(k).1);
    EncodeInjective(x, y, DotAt(k).0, DotAt(k).1);
    DotAtCell(k);
  }

  /** The k-th dot written lies on the dot grid. */
  lemma DotAtCell(k: nat)
    requires k < DotCount
    ensures DotCell(DotAt(k).0, DotAt(k).1)
  {
    var q, r := k / RowsOfDots, k % RowsOfDots;
    assert k == RowsOfDots * q + r && 0 <= r < RowsOfDots;
    assert q < Columns;
    assert (30 * q) % 30 == 0 && (30 * r) % 30 == 0;
  }

  lemma DotCellIsWritten(x: nat, y: nat)
    requires DotCell(x, y)
    ensures Encode(x, y) in AllDots()
  {
    var i, j := (x - 50) / 30, (y - 50) / 30;
    assert x == 50 + 30 * i && y == 50 + 30 * j;
    assert i < Columns && j < RowsOfDots;
    DotAtGrid(i, j);
    var k := RowsOfDots * i + j;
    assert k < DotCount;
    assert Encode(DotAt(k).0, DotAt(k).1) in DotsUpTo(DotCount);
  }

  /** A point is written by `spawnDots` exactly when it is a dot position of the board. */
  lemma AllDotsMeaning(x: nat, y: nat)
    ensures Encode(x, y) in AllDots() <==> DotCell(x, y)
  {
    if Encode(x, y) in AllDots() {
      WrittenIsDotCell(x, y);
    }
    if DotCell(x, y) {
      DotCellIsWritten(x, y);
    }
  }

  /** Every dot of the board reads back as a dot position. */
  lemma AllDotsDecode(d: string)
    requires d in AllDots()
    ensures Decode(d).Some? && DotCell(Decode(d).value.0, Decode(d).value.1)
  {
    var k :| 0 <= k < DotCount && d == Encode(DotAt(k).0, DotAt(k).1);
    DecodeEncode(DotAt(k).0, DotAt(k).1);
    AllDotsMeaning(DotAt(k).0, DotAt(k).1);
  }

  /** `hypot(dx, dy) < 20`, squared; a dot that does not read back is never near. */
  predicate Near(dot: string, px: real, py: real) {
    match Decode(dot)
    case None => false
    case Some(p) =>
      var dx, dy := p.0 as real - px, p.1 as real - py;
      dx * dx + dy * dy < (Reach * Reach) as real
  }

  /**
   * The search of `checkDots`: the dots are visited in the set's own order
   * and the first one near Pac-Man is taken.
   */
  method FindNear(dots: set<string>, px: real, py: real) returns (hit: Option<string>)
    ensures hit.Some? ==> hit.value in dots && Near(hit.value, px, py)
    ensures hit.None? ==> forall d :: d in dots ==> !Near(d, px, py)
  {
    var rest := dots;
    while rest != {}
      invariant rest <= dots
      invariant forall d :: d in dots && d !in rest ==> !Near(d, px, py)
      decreases |rest|
    {
      var d :| d in rest;
      if Near(d, px, py) {
        return Some(d);
      }
      rest := rest - {d};
    }
    return None;
  }

  /** Inserting the dot of column i, row j extends the dots inserted so far by one. */
  lemma InsertStep(start: set<string>, dots: set<string>, i: nat, j: nat, n: nat)
    requires j < RowsOfDots && n == RowsOfDots * i + j && dots == start + DotsUpTo(n)
    ensures dots + {Encode(50 + 30 * i, 50 + 30 * j)} == start + DotsUpTo(n + 1)
  {
    DotAtGrid(i, j);
    DotsUpToStep(n);
  }

  /**
   * The two `stride` loops of `spawnDots`: column by column, row by row,
   * each dot's text is inserted into the set.
   */
  method InsertDots(start: set<string>) returns (dots: set<string>)
    ensures dots == start + AllDots()
  {
    dots := start;
    var x := 50;
    ghost var i := 0;
    ghost var n := 0;
    while x < 450
      invariant 0 <= i <= Columns && x == 50 + 30 * i && n == RowsOfDots * i
      invariant dots == start + DotsUpTo(n)
    {
      var y := 50;
      ghost var j := 0;
      while y < 550
        invariant 0 <= j <= RowsOfDots && y == 50 + 30 * j && n == RowsOfDots * i + j
        invariant dots == start + DotsUpTo(n)
      {
        InsertStep(start, dots, i, j, n);
        dots := dots + {Encode(x, y)};
        y, j, n := y + 30, j + 1, n + 1;
      }
      x, i := x + 30, i + 1;
    }
    assert i == Columns && n == DotCount;
  }

  class PacManGame {
    var pacX: real
    var pacY: real
    var dots: set<string>
    var score: int

    /** Only board dots are ever on the board, and the score counts whole dots. */
    predicate Valid()
      reads this
    {
      dots <= AllDots() && score >= 0 && score % PointsPerDot == 0
    }

    constructor()
      ensures Valid()
      ensures pacX == 250.0 && pacY == 300.0 && dots == {} && score == 0
    {
      pacX, pacY := 250.0, 300.0;
      dots := {};
      score := 0;
    }

    /** `spawnDots`: every board dot is added to whatever is there. */
    method SpawnDots()
      requires Valid()
      modifies this
      ensures Valid()
      ensures dots == old(dots) + AllDots()
      ensures pacX == old(pacX) && pacY == old(pacY) && score == old(score)
    {
      dots := InsertDots(dots);
    }

    /**
     * `checkDots`: if some dot is near Pac-Man, one such dot is removed and
     * 10 points are scored; otherwise nothing changes.  Points plus ten per
     * remaining dot stay the same.
     */
    method CheckDots()
      requires Valid()
      modifies this
      ensures Valid()
      ensures pacX == old(pacX) && pacY == old(pacY)
      ensures if exists d :: d in old(dots) && Near(d, pacX, pacY) then
          (exists d :: d in old(dots) && Near(d, pacX, pacY) && dots == old(dots) - {d}) &&
          score == old(score) + PointsPerDot
        else
          dots == old(dots) && score == old(score)
      ensures score + PointsPerDot * |dots| == old(score) + PointsPerDot * |old(dots)|
    {
      var hit := FindNear(dots, pacX, pacY);
      if hit.Some? {
        dots := dots - {hit.value};
        score := score + PointsPerDot;
      }
    }

    /** The drag gesture: Pac-Man jumps to the touch point, then `checkDots` eats a dot near it, if any. */
    method Drag(x: real, y: real)
      requires Valid()
      modifies this
      ensures Valid() && pacX == x && pacY == y
      ensures if exists d :: d in old(dots) && Near(d, x, y) then
          (exists d :: d in old(dots) && Near(d, x, y) && dots == old(dots) - {d}) &&
          score == old(score) + PointsPerDot
        else
          dots == old(dots) && score == old(score)
      ensures score + PointsPerDot * |dots| == old(score) + PointsPerDot * |old(dots)|
    {
      pacX, pacY := x, y;
      CheckDots();
    }
  }
}
