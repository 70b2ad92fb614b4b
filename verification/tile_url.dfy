/** The request URL `https://tile.openstreetmap.org/{zoom}/{x}/{y}.png` formatted for each grid
    cell, with Python's decimal rendering of integers (a leading `-` for negatives). The partner
    is a parser: every URL the routine formats reads back as the tile it was made from, so two
    different cells never send the same request. */
module TileUrl {
  import opened Wrappers
  import opened Grid

  const Host: string := "https://tile.openstreetmap.org/"
  const Extension: string := ".png"

  predicate IsDigit(c: char)
  {
    '0' <= c <= '9'
  }

  predicate AllDigits(s: string)
  {
    forall i :: 0 <= i < |s| ==> IsDigit(s[i])
  }

  function DigitChar(d: nat): (c: char)
    requires d < 10
    ensures IsDigit(c) && c as int - '0' as int == d
  {
    (d + '0' as int) as char
  }

  /** Decimal digits of `n`, most significant first, without leading zeros. */
  function NatToString(n: nat): (s: string)
    ensures |s| >= 1 && AllDigits(s)
    decreases n
  {
    if n < 10 then [DigitChar(n)] else NatToString(n / 10) + [DigitChar(n % 10)]
  }

  /** `str(i)` for a Python int. */
  function IntToString(i: int): string
  {
    if i < 0 then "-" + NatToString(-i) else NatToString(i)
  }

  /** Reads a non-empty run of decimal digits. */
  function ParseNat(s: string): nat
    requires |s| >= 1 && AllDigits(s)
    decreases |s|
  {
    var last := s[|s| - 1] as int - '0' as int;
    if |s| == 1 then last else 10 * ParseNat(s[..|s| - 1]) + last
  }

  /** Reads an optionally negative decimal integer; anything else is None. */
  function ParseInt(s: string): Option<int>
  {
    if |s| >= 1 && AllDigits(s) then Some(ParseNat(s) as int)
    else if |s| >= 2 && s[0] == '-' && AllDigits(s[1..]) then Some(-(ParseNat(s[1..]) as int))
    else None
  }

  /** Splits `s` at every occurrence of `sep`. */
  function Split(s: string, sep: char): (parts: seq<string>)
    ensures |parts| >= 1
    decreases |s|
  {
    if |s| == 0 then [""]
    else
      var rest := Split(s[1..], sep);
      if s[0] == sep then [""] + rest else [[s[0]] + rest[0]] + rest[1..]
  }

  /** The URL requested for tile `t`. */
  function Url(t: TileCoord): string
  {
    Host + IntToString(t.zoom) + "/" + IntToString(t.x) + "/" + IntToString(t.y) + Extension
  }

  /** Recovers the tile from a URL of the form `Url` produces. */
  function ParseUrl(u: string): Option<TileCoord>
  {
    if |u| < |Host| + |Extension| || u[..|Host|] != Host || u[|u| - |Extension|..] != Extension then None
    else
      var parts := Split(u[|Host|..|u| - |Extension|], '/');
      if |parts| != 3 then None
      else
        match (ParseInt(parts[0]), ParseInt(parts[1]), ParseInt(parts[2]))
        case (Some(z), Some(x), Some(y)) => if z >= 0 then Some(TileCoord(z, x, y)) else None
        case _ => None
  }

  // ---------------------------------------------------------------------------------------

  /** Reading back the decimal digits of `n` gives `n`. */
  lemma {:induction false} ParseNatToString(n: nat)
    ensures ParseNat(NatToString(n)) == n
    decreases n
  {
    var s := NatToString(n);
    if n >= 10 {
      var front := NatToString(n / 10);
      assert s[..|s| - 1] == front;
      ParseNatToString(n / 10);
    }
  }

  /** `str` followed by reading back is the identity on integers. */
  lemma ParseIntToString(i: int)
    ensures ParseInt(IntToString(i)) == Some(i)
  {
    if i < 0 {
      ParseNegative(-i);
    } else {
      ParseNatToString(i);
    }
  }

  /** A minus sign followed by the digits of `n > 0` reads back as `-n`. */
  lemma ParseNegative(n: nat)
    requires n > 0
    ensures ParseInt("-" + NatToString(n)) == Some(-(n as int))
  {
    var s := "-" + NatToString(n);
    assert s[1..] == NatToString(n);
    assert !IsDigit(s[0]);
    ParseNatToString(n);
  }

  /** A piece without separators splits to itself. */
  lemma {:induction false} SplitNoSep(a: string, sep: char)
    requires sep !in a
    ensures Split(a, sep) == [a]
    decreases |a|
  {
    if |a| > 0 {
      assert sep !in a[1..];
      SplitNoSep(a[1..], sep);
      assert [a[0]] + a[1..] == a;
    }
  }

  /** A separator-free head followed by a separator splits off as the first piece. */
  lemma {:induction false} SplitAtSep(a: string, b: string, sep: char)
    requires sep !in a
    ensures Split(a + [sep] + b, sep) == [a] + Split(b, sep)
    decreases |a|
  {
    var s := a + [sep] + b;
    if |a| == 0 {
      assert s[1..] == b;
    } else {
      assert s[1..] == a[1..] + [sep] + b;
      assert sep !in a[1..];
      SplitAtSep(a[1..], b, sep);
      assert [a[0]] + a[1..] == a;
    }
  }

  /** Decimal renderings never contain the path separator. */
  lemma NoSlashInInt(i: int)
    ensures '/' !in IntToString(i)
  {
    var s := IntToString(i);
    if i < 0 {
      assert s == "-" + NatToString(-i);
    }
  }

  /** The URL of a tile reads back as that tile. */
  lemma ParseUrlOfUrl(t: TileCoord)
    ensures ParseUrl(Url(t)) == Some(t)
  {
    var z, x, y := IntToString(t.zoom), IntToString(t.x), IntToString(t.y);
    UrlFraming(z, x, y);
    NoSlashInInt(t.zoom);
    NoSlashInInt(t.x);
    NoSlashInInt(t.y);
    SplitPath(z, x, y);
    ParseIntToString(t.zoom);
    ParseIntToString(t.x);
    ParseIntToString(t.y);
  }

  /** A URL is the host, the path and the extension, each recoverable by position. */
  lemma UrlFraming(z: string, x: string, y: string)
    ensures var u := Host + z + "/" + x + "/" + y + Extension;
      && |u| >= |Host| + |Extension|
      && u[..|Host|] == Host
      && u[|u| - |Extension|..] == Extension
      && u[|Host|..|u| - |Extension|] == z + "/" + x + "/" + y
  {
    var path := z + "/" + x + "/" + y;
    var u := Host + z + "/" + x + "/" + y + Extension;
    assert u == Host + path + Extension;
  }

  /** A path of three separator-free pieces splits into those pieces. */
  lemma SplitPath(z: string, x: string, y: string)
    requires '/' !in z && '/' !in x && '/' !in y
    ensures Split(z + "/" + x + "/" + y, '/') == [z, x, y]
  {
    assert z + "/" + x + "/" + y == z + ['/'] + (x + ['/'] + y);
    SplitAtSep(z, x + ['/'] + y, '/');
    SplitAtSep(x, y, '/');
    SplitNoSep(y, '/');
  }

  /** Distinct tiles are requested at distinct URLs. */
  lemma UrlInjective(a: TileCoord, b: TileCoord)
    requires Url(a) == Url(b)
    ensures a == b
  {
    ParseUrlOfUrl(a);
    ParseUrlOfUrl(b);
  }

  /** Every cell of a request grid has its own URL. */
  lemma GridUrlsDistinct(grid: seq<seq<TileCoord>>, tileX: int, tileY: int, zoom: nat)
    requires IsRequestGrid(grid, tileX, tileY, zoom)
    ensures forall r1, c1, r2, c2 ::
              (0 <= r1 < GridSize && 0 <= c1 < GridSize && 0 <= r2 < GridSize && 0 <= c2 < GridSize
               && Url(grid[r1][c1]) == Url(grid[r2][c2])) ==> r1 == r2 && c1 == c2
  {
    forall r1, c1, r2, c2 |
      0 <= r1 < GridSize && 0 <= c1 < GridSize && 0 <= r2 < GridSize && 0 <= c2 < GridSize
      && Url(grid[r1][c1]) == Url(grid[r2][c2])
      ensures r1 == r2 && c1 == c2
    {
      UrlInjective(grid[r1][c1], grid[r2][c2]);
    }
  }

  /** The western neighbour of a tile in column 0 is requested as column `-1`, literally. */
  lemma WestOfColumnZeroUrl(grid: seq<seq<TileCoord>>, tileY: int, zoom: nat)
    requires IsRequestGrid(grid, 0, tileY, zoom)
    ensures Url(grid[1][0]) == Host + IntToString(zoom) + "/-1/" + IntToString(tileY) + Extension
  {
    assert IntToString(-1) == "-1";
  }
}
