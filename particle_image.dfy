// ParticleData.calculate of demo/particle.ts: the RGBA bytes of an image of w x h pixels are
// cut into columns of opaque pixels. The left half is scanned from column w/2 - 1 down to 0,
// the right half from column w - 1 down to w/2, each column top to bottom, and the columns
// left empty are dropped.

module ParticleImage {

  newtype byte = x: int | 0 <= x < 256

  /** One opaque pixel (the IParticleData record); its style and color strings are the
      rgba(...) and rgb(...) texts of r, g, b and alpha. */
  datatype ParticleDatum = ParticleDatum(x: int, y: int, r: byte, g: byte, b: byte, alpha: byte,
                                         opacity: real)

  /** The image data has the size the canvas gives it. */
  predicate Image(data: seq<byte>, w: int, h: int) {
    0 <= w && 0 <= h && |data| == w * h * 4
  }

  /** The offset of pixel (i, j) in the image data. */
  function Pos(w: int, i: int, j: int): int {
    (j * w + i) * 4
  }

  lemma PosInBounds(data: seq<byte>, w: int, h: int, i: int, j: int)
    requires Image(data, w, h) && 0 <= i < w && 0 <= j < h
    ensures 0 <= Pos(w, i, j) && Pos(w, i, j) + 3 < |data|
  {
    assert j * w + i < (j + 1) * w <= h * w;
  }

  predicate InImage(w: int, h: int, i: int, j: int) {
    0 <= i < w && 0 <= j < h
  }

  function Alpha(data: seq<byte>, w: int, h: int, i: int, j: int): byte
    requires Image(data, w, h) && InImage(w, h, i, j)
  {
    PosInBounds(data, w, h, i, j);
    data[Pos(w, i, j) + 3]
  }

  /** The record built for pixel (i, j). */
  function Datum(data: seq<byte>, w: int, h: int, i: int, j: int): (d: ParticleDatum)
    requires Image(data, w, h) && InImage(w, h, i, j)
    ensures d.x == i && d.y == j && d.alpha == Alpha(data, w, h, i, j)
  {
    PosInBounds(data, w, h, i, j);
    var pos := Pos(w, i, j);
    ParticleDatum(i, j, data[pos], data[pos + 1], data[pos + 2], data[pos + 3],
                  data[pos + 3] as real / 255.0)
  }

  /** The opaque pixels among the first n rows of column i, top to bottom. */
  function ColumnRows(data: seq<byte>, w: int, h: int, i: int, n: int): seq<ParticleDatum>
    requires Image(data, w, h) && 0 <= i < w && 0 <= n <= h
    decreases n
  {
    if n == 0 then []
    else
      ColumnRows(data, w, h, i, n - 1)
      + (if Alpha(data, w, h, i, n - 1) > 0 then [Datum(data, w, h, i, n - 1)] else [])
  }

  function Column(data: seq<byte>, w: int, h: int, i: int): seq<ParticleDatum>
    requires Image(data, w, h) && 0 <= i < w
  {
    ColumnRows(data, w, h, i, h)
  }

  /** The columns start, start - 1, ..., lo, in that order (before filtering). */
  function ColumnsDown(data: seq<byte>, w: int, h: int, start: int, lo: int)
    : (r: seq<seq<ParticleDatum>>)
    requires Image(data, w, h) && 0 <= lo <= start + 1 && start < w
    ensures |r| == start + 1 - lo
    decreases start + 1 - lo
  {
    if lo == start + 1 then [] else ColumnsDown(data, w, h, start, lo + 1) + [Column(data, w, h, lo)]
  }

  /** list.filter(item => item.length > 0). */
  function DropEmpty(cols: seq<seq<ParticleDatum>>): (r: seq<seq<ParticleDatum>>)
    ensures forall k :: 0 <= k < |r| ==> |r[k]| > 0
    ensures |r| <= |cols|
    decreases |cols|
  {
    if cols == [] then []
    else
      var last := cols[|cols| - 1];
      DropEmpty(cols[..|cols| - 1]) + (if |last| > 0 then [last] else [])
  }

  /** The left list calculate leaves: columns w/2 - 1 down to 0. */
  function LeftColumns(data: seq<byte>, w: int, h: int): (r: seq<seq<ParticleDatum>>)
    requires Image(data, w, h) && w % 2 == 0
    ensures |r| <= w / 2
    ensures forall k :: 0 <= k < |r| ==> |r[k]| > 0
  {
    DropEmpty(ColumnsDown(data, w, h, w / 2 - 1, 0))
  }

  /** The right list calculate leaves: columns w - 1 down to w/2. */
  function RightColumns(data: seq<byte>, w: int, h: int): (r: seq<seq<ParticleDatum>>)
    requires Image(data, w, h) && w % 2 == 0
    ensures |r| <= w / 2
    ensures forall k :: 0 <= k < |r| ==> |r[k]| > 0
  {
    DropEmpty(ColumnsDown(data, w, h, w - 1, w / 2))
  }

  // ---------------------------------------------------------------------------------------
  // What the lists contain

  /** How many entries of a column, or of a list of columns, stand for pixel (i, j). */
  function CountInColumn(col: seq<ParticleDatum>, i: int, j: int): nat
    decreases |col|
  {
    if col == [] then 0
    else
      CountInColumn(col[..|col| - 1], i, j)
      + (if col[|col| - 1].x == i && col[|col| - 1].y == j then 1 else 0)
  }

  function CountIn(cols: seq<seq<ParticleDatum>>, i: int, j: int): nat
    decreases |cols|
  {
    if cols == [] then 0 else CountIn(cols[..|cols| - 1], i, j) + CountInColumn(cols[|cols| - 1], i, j)
  }

  lemma {:induction false} CountColumnRows(data: seq<byte>, w: int, h: int, c: int, n: int,
                                           i: int, j: int)
    requires Image(data, w, h) && 0 <= c < w && 0 <= n <= h
    ensures CountInColumn(ColumnRows(data, w, h, c, n), i, j)
            == if c == i && 0 <= j < n && Alpha(data, w, h, i, j) > 0 then 1 else 0
    decreases n
  {
    if n > 0 {
      var prev := ColumnRows(data, w, h, c, n - 1);
      CountColumnRows(data, w, h, c, n - 1, i, j);
      if Alpha(data, w, h, c, n - 1) > 0 {
        var col := prev + [Datum(data, w, h, c, n - 1)];
        assert col[..|col| - 1] == prev;
      } else {
        assert ColumnRows(data, w, h, c, n) == prev;
      }
    }
  }

  lemma {:induction false} CountColumnsDown(data: seq<byte>, w: int, h: int, start: int, lo: int,
                                            i: int, j: int)
    requires Image(data, w, h) && 0 <= lo <= start + 1 && start < w
    ensures CountIn(ColumnsDown(data, w, h, start, lo), i, j)
            == if lo <= i <= start && 0 <= j < h && Alpha(data, w, h, i, j) > 0 then 1 else 0
    decreases start + 1 - lo
  {
    if lo <= start {
      var cols := ColumnsDown(data, w, h, start, lo);
      CountColumnsDown(data, w, h, start, lo + 1, i, j);
      assert cols[..|cols| - 1] == ColumnsDown(data, w, h, start, lo + 1);
      CountColumnRows(data, w, h, lo, h, i, j);
    }
  }

  lemma {:induction false} CountDropEmpty(cols: seq<seq<ParticleDatum>>, i: int, j: int)
    ensures CountIn(DropEmpty(cols), i, j) == CountIn(cols, i, j)
    decreases |cols|
  {
    if cols != [] {
      var init, last := cols[..|cols| - 1], cols[|cols| - 1];
      CountDropEmpty(init, i, j);
      if |last| > 0 {
        var r := DropEmpty(init) + [last];
        assert r[..|r| - 1] == DropEmpty(init);
      } else {
        assert DropEmpty(cols) == DropEmpty(init);
      }
    }
  }

  /** Pixel (i, j) lies in the image and is not fully transparent. */
  predicate Opaque(data: seq<byte>, w: int, h: int, i: int, j: int)
    requires Image(data, w, h)
  {
    InImage(w, h, i, j) && Alpha(data, w, h, i, j) > 0
  }

  /** Every opaque pixel of an even-width image appears exactly once across the two lists,
      and no transparent pixel and nothing outside the image appears at all. */
  lemma ExactlyOnce(data: seq<byte>, w: int, h: int, i: int, j: int)
    requires Image(data, w, h) && w % 2 == 0
    ensures CountIn(LeftColumns(data, w, h), i, j) + CountIn(RightColumns(data, w, h), i, j)
            == if Opaque(data, w, h, i, j) then 1 else 0
  {
    CountLeft(data, w, h, i, j);
    CountRight(data, w, h, i, j);
  }

  /** The left list holds the opaque pixels of columns 0 to w/2 - 1, once each. */
  lemma CountLeft(data: seq<byte>, w: int, h: int, i: int, j: int)
    requires Image(data, w, h) && w % 2 == 0
    ensures CountIn(LeftColumns(data, w, h), i, j)
            == if i < w / 2 && Opaque(data, w, h, i, j) then 1 else 0
  {
    CountHalf(data, w, h, w / 2 - 1, 0, i, j);
  }

  /** The right list holds the opaque pixels of columns w/2 to w - 1, once each. */
  lemma CountRight(data: seq<byte>, w: int, h: int, i: int, j: int)
    requires Image(data, w, h) && w % 2 == 0
    ensures CountIn(RightColumns(data, w, h), i, j)
            == if w / 2 <= i && Opaque(data, w, h, i, j) then 1 else 0
  {
    CountHalf(data, w, h, w - 1, w / 2, i, j);
  }

  lemma CountHalf(data: seq<byte>, w: int, h: int, start: int, lo: int, i: int, j: int)
    requires Image(data, w, h) && 0 <= lo <= start + 1 && start < w
    ensures CountIn(DropEmpty(ColumnsDown(data, w, h, start, lo)), i, j)
            == if lo <= i <= start && Opaque(data, w, h, i, j) then 1 else 0
  {
    CountDropEmpty(ColumnsDown(data, w, h, start, lo), i, j);
    CountColumnsDown(data, w, h, start, lo, i, j);
  }

  // ---------------------------------------------------------------------------------------
  // Shape and order of the lists

  /** A column of the output: all of pixel column x, rows strictly increasing, each entry
      the record of an opaque pixel. */
  predicate ColumnOf(data: seq<byte>, w: int, h: int, col: seq<ParticleDatum>, x: int)
    requires Image(data, w, h)
  {
    && (forall k :: 0 <= k < |col| ==>
          && InImage(w, h, x, col[k].y)
          && col[k] == Datum(data, w, h, x, col[k].y)
          && col[k].alpha > 0)
    && (forall k, l :: 0 <= k < l < |col| ==> col[k].y < col[l].y)
  }

  /** A list of columns whose pixel columns lie in [lo, hi) and strictly decrease. */
  predicate ColumnsIn(data: seq<byte>, w: int, h: int, cols: seq<seq<ParticleDatum>>,
                      lo: int, hi: int)
    requires Image(data, w, h)
  {
    && (forall a :: 0 <= a < |cols| ==> |cols[a]| > 0 && lo <= cols[a][0].x < hi
                                        && ColumnOf(data, w, h, cols[a], cols[a][0].x))
    && (forall a, b :: 0 <= a < b < |cols| ==> cols[a][0].x > cols[b][0].x)
  }

  lemma {:induction false} ColumnRowsShape(data: seq<byte>, w: int, h: int, c: int, n: int)
    requires Image(data, w, h) && 0 <= c < w && 0 <= n <= h
    ensures ColumnOf(data, w, h, ColumnRows(data, w, h, c, n), c)
    ensures forall k :: 0 <= k < |ColumnRows(data, w, h, c, n)| ==>
              ColumnRows(data, w, h, c, n)[k].y < n
    decreases n
  {
    if n > 0 {
      ColumnRowsShape(data, w, h, c, n - 1);
    }
  }

  /** The columns of ColumnsDown, each tagged with its pixel column. */
  lemma {:induction false} ColumnsDownShape(data: seq<byte>, w: int, h: int, start: int, lo: int)
    requires Image(data, w, h) && 0 <= lo <= start + 1 && start < w
    ensures var cols := ColumnsDown(data, w, h, start, lo);
            && |cols| == start + 1 - lo
            && forall a :: 0 <= a < |cols| ==>
                 && ColumnOf(data, w, h, cols[a], start - a)
                 && (forall k :: 0 <= k < |cols[a]| ==> cols[a][k].x == start - a)
    decreases start + 1 - lo
  {
    if lo <= start {
      ColumnsDownShape(data, w, h, start, lo + 1);
      ColumnRowsShape(data, w, h, lo, h);
    }
  }

  /** Dropping the empty columns of columns tagged start, start - 1, ... leaves non-empty
      columns whose pixel columns strictly decrease and stay in [lo, start]. */
  lemma {:induction false} DropEmptyShape(data: seq<byte>, w: int, h: int,
                                          cols: seq<seq<ParticleDatum>>, start: int, lo: int)
    requires Image(data, w, h) && |cols| == start + 1 - lo && 0 <= lo
    requires forall a :: 0 <= a < |cols| ==>
               && ColumnOf(data, w, h, cols[a], start - a)
               && (forall k :: 0 <= k < |cols[a]| ==> cols[a][k].x == start - a)
    ensures ColumnsIn(data, w, h, DropEmpty(cols), start + 1 - |cols|, start + 1)
    decreases |cols|
  {
    if cols != [] {
      var init := cols[..|cols| - 1];
      DropEmptyShape(data, w, h, init, start, lo + 1);
      var last := cols[|cols| - 1];
      if |last| > 0 {
        assert last[0].x == start + 1 - |cols|;
      } else {
        assert DropEmpty(cols) == DropEmpty(init);
      }
    }
  }

  /** With even w, the left list holds non-empty columns w/2 - 1 down to 0 and the right list
      non-empty columns w - 1 down to w/2; within a column the rows go top to bottom, and
      every entry is the record of an opaque pixel of its column. */
  lemma ListsShape(data: seq<byte>, w: int, h: int)
    requires Image(data, w, h) && w % 2 == 0
    ensures ColumnsIn(data, w, h, LeftColumns(data, w, h), 0, w / 2)
    ensures ColumnsIn(data, w, h, RightColumns(data, w, h), w / 2, w)
  {
    HalfShape(data, w, h, w / 2 - 1, 0);
    HalfShape(data, w, h, w - 1, w / 2);
  }

  lemma HalfShape(data: seq<byte>, w: int, h: int, start: int, lo: int)
    requires Image(data, w, h) && 0 <= lo <= start + 1 && start < w
    ensures ColumnsIn(data, w, h, DropEmpty(ColumnsDown(data, w, h, start, lo)), lo, start + 1)
  {
    ColumnsDownShape(data, w, h, start, lo);
    DropEmptyShape(data, w, h, ColumnsDown(data, w, h, start, lo), start, lo);
  }

  /** The opacity of an opaque pixel's record is alpha / 255, in (0, 1]. */
  lemma OpacityInRange(data: seq<byte>, w: int, h: int, i: int, j: int)
    requires Image(data, w, h) && InImage(w, h, i, j) && Alpha(data, w, h, i, j) > 0
    ensures var d := Datum(data, w, h, i, j);
            d.opacity * 255.0 == d.alpha as real && 0.0 < d.opacity <= 1.0
  {
  }

  // ---------------------------------------------------------------------------------------
  // A fully transparent image

  lemma {:induction false} TransparentColumnsEmpty(data: seq<byte>, w: int, h: int, c: int, n: int)
    requires Image(data, w, h) && 0 <= c < w && 0 <= n <= h
    requires forall j :: 0 <= j < h ==> Alpha(data, w, h, c, j) == 0
    ensures ColumnRows(data, w, h, c, n) == []
    decreases n
  {
    if n > 0 {
      TransparentColumnsEmpty(data, w, h, c, n - 1);
    }
  }

  lemma {:induction false} TransparentDropsAll(data: seq<byte>, w: int, h: int, start: int, lo: int)
    requires Image(data, w, h) && 0 <= lo <= start + 1 && start < w
    requires forall i, j :: InImage(w, h, i, j) ==> Alpha(data, w, h, i, j) == 0
    ensures DropEmpty(ColumnsDown(data, w, h, start, lo)) == []
    decreases start + 1 - lo
  {
    if lo <= start {
      var cols := ColumnsDown(data, w, h, start, lo);
      TransparentDropsAll(data, w, h, start, lo + 1);
      TransparentColumnsEmpty(data, w, h, lo, h);
      assert cols[..|cols| - 1] == ColumnsDown(data, w, h, start, lo + 1);
    }
  }

  /** A fully transparent image gives two empty lists (and so no particles at all). */
  lemma TransparentImageIsEmpty(data: seq<byte>, w: int, h: int)
    requires Image(data, w, h) && w % 2 == 0
    requires forall i, j :: InImage(w, h, i, j) ==> Alpha(data, w, h, i, j) == 0
    ensures LeftColumns(data, w, h) == [] && RightColumns(data, w, h) == []
  {
    TransparentLeftEmpty(data, w, h);
    TransparentRightEmpty(data, w, h);
  }

  lemma TransparentLeftEmpty(data: seq<byte>, w: int, h: int)
    requires Image(data, w, h) && w % 2 == 0
    requires forall i, j :: InImage(w, h, i, j) ==> Alpha(data, w, h, i, j) == 0
    ensures LeftColumns(data, w, h) == []
  {
    TransparentDropsAll(data, w, h, w / 2 - 1, 0);
  }

  lemma TransparentRightEmpty(data: seq<byte>, w: int, h: int)
    requires Image(data, w, h) && w % 2 == 0
    requires forall i, j :: InImage(w, h, i, j) ==> Alpha(data, w, h, i, j) == 0
    ensures RightColumns(data, w, h) == []
  {
    TransparentDropsAll(data, w, h, w - 1, w / 2);
  }

  /** Writing an entry twice leaves only the second write. */
  lemma UpdateTwice<T>(s: seq<T>, k: int, a: T, b: T)
    requires 0 <= k < |s|
    ensures s[k := a][k := b] == s[k := b]
  {
  }

  // ---------------------------------------------------------------------------------------
  // The object

  class ParticleData {
    var width: int
    var height: int
    var leftImgDataList: seq<seq<ParticleDatum>>
    var rightImgDataList: seq<seq<ParticleDatum>>

    /** The constructor's state before init draws the image: both lists empty. */
    constructor(w: int, h: int)
      ensures width == w && height == h && leftImgDataList == [] && rightImgDataList == []
    {
      width, height := w, h;
      leftImgDataList, rightImgDataList := [], [];
    }

    /** calculate(w, h, imgData) on the lists the constructor left empty. */
    method Calculate(w: int, h: int, data: seq<byte>)
      requires Image(data, w, h) && w % 2 == 0
      requires leftImgDataList == [] && rightImgDataList == []
      modifies this
      ensures leftImgDataList == LeftColumns(data, w, h)
      ensures rightImgDataList == RightColumns(data, w, h)
      ensures width == old(width) && height == old(height)
    {
      ScanLeftHalf(w, h, data);
      leftImgDataList := DropEmpty(leftImgDataList);
      ScanRightHalf(w, h, data);
      rightImgDataList := DropEmpty(rightImgDataList);
    }

    /** The first loop of calculate: columns w/2 - 1 down to 0, one entry each. */
    method ScanLeftHalf(w: int, h: int, data: seq<byte>)
      requires Image(data, w, h) && w % 2 == 0 && leftImgDataList == []
      modifies this
      ensures leftImgDataList == ColumnsDown(data, w, h, w / 2 - 1, 0)
      ensures rightImgDataList == old(rightImgDataList)
      ensures width == old(width) && height == old(height)
    {
      var leftIndex := 0;
      var i := w / 2 - 1;
      while i >= 0
        invariant -1 <= i <= w / 2 - 1
        invariant leftIndex == w / 2 - 1 - i == |leftImgDataList|
        invariant leftImgDataList == ColumnsDown(data, w, h, w / 2 - 1, i + 1)
        invariant rightImgDataList == old(rightImgDataList)
        invariant width == old(width) && height == old(height)
        decreases i
      {
        leftImgDataList := leftImgDataList + [[]];
        ScanLeft(w, h, data, leftIndex, i);
        assert leftImgDataList == ColumnsDown(data, w, h, w / 2 - 1, i + 1) + [Column(data, w, h, i)];
        leftIndex := leftIndex + 1;
        i := i - 1;
      }
    }

    /** The second loop of calculate: columns w - 1 down to w/2, one entry each. */
    method ScanRightHalf(w: int, h: int, data: seq<byte>)
      requires Image(data, w, h) && w % 2 == 0 && rightImgDataList == []
      modifies this
      ensures rightImgDataList == ColumnsDown(data, w, h, w - 1, w / 2)
      ensures leftImgDataList == old(leftImgDataList)
      ensures width == old(width) && height == old(height)
    {
      var rightIndex := 0;
      var i := w - 1;
      while i >= w / 2
        invariant w / 2 - 1 <= i <= w - 1
        invariant rightIndex == w - 1 - i == |rightImgDataList|
        invariant rightImgDataList == ColumnsDown(data, w, h, w - 1, i + 1)
        invariant leftImgDataList == old(leftImgDataList)
        invariant width == old(width) && height == old(height)
        decreases i
      {
        rightImgDataList := rightImgDataList + [[]];
        ScanRight(w, h, data, rightIndex, i);
        assert rightImgDataList == ColumnsDown(data, w, h, w - 1, i + 1) + [Column(data, w, h, i)];
        rightIndex := rightIndex + 1;
        i := i - 1;
      }
    }

    /** The inner loop of the left half of calculate: push the opaque pixels of column i,
        top to bottom, onto entry index of the left list. */
    method ScanLeft(w: int, h: int, data: seq<byte>, index: int, i: int)
      requires Image(data, w, h) && 0 <= i < w
      requires 0 <= index < |leftImgDataList| && leftImgDataList[index] == []
      modifies this
      ensures leftImgDataList == old(leftImgDataList)[index := Column(data, w, h, i)]
      ensures rightImgDataList == old(rightImgDataList)
      ensures width == old(width) && height == old(height)
    {
      for j := 0 to h
        invariant leftImgDataList == old(leftImgDataList)[index := ColumnRows(data, w, h, i, j)]
        invariant rightImgDataList == old(rightImgDataList)
        invariant width == old(width) && height == old(height)
      {
        PosInBounds(data, w, h, i, j);
        var pos := (j * w + i) * 4;
        assert pos == Pos(w, i, j);
        if data[pos + 3] > 0 {
          var particle := ParticleDatum(i, j, data[pos], data[pos + 1], data[pos + 2], data[pos + 3],
                                        data[pos + 3] as real / 255.0);
          assert particle == Datum(data, w, h, i, j);
          assert ColumnRows(data, w, h, i, j + 1) == ColumnRows(data, w, h, i, j) + [particle];
          UpdateTwice(old(leftImgDataList), index, ColumnRows(data, w, h, i, j),
                      ColumnRows(data, w, h, i, j + 1));
          leftImgDataList := leftImgDataList[index := leftImgDataList[index] + [particle]];
        } else {
          assert ColumnRows(data, w, h, i, j + 1) == ColumnRows(data, w, h, i, j);
        }
      }
    }

    /** The inner loop of the right half of calculate, onto entry index of the right list. */
    method ScanRight(w: int, h: int, data: seq<byte>, index: int, i: int)
      requires Image(data, w, h) && 0 <= i < w
      requires 0 <= index < |rightImgDataList| && rightImgDataList[index] == []
      modifies this
      ensures rightImgDataList == old(rightImgDataList)[index := Column(data, w, h, i)]
      ensures leftImgDataList == old(leftImgDataList)
      ensures width == old(width) && height == old(height)
    {
      for j := 0 to h
        invariant rightImgDataList == old(rightImgDataList)[index := ColumnRows(data, w, h, i, j)]
        invariant leftImgDataList == old(leftImgDataList)
        invariant width == old(width) && height == old(height)
      {
        PosInBounds(data, w, h, i, j);
        var pos := (j * w + i) * 4;
        assert pos == Pos(w, i, j);
        if data[pos + 3] > 0 {
          var particle := ParticleDatum(i, j, data[pos], data[pos + 1], data[pos + 2], data[pos + 3],
                                        data[pos + 3] as real / 255.0);
          assert particle == Datum(data, w, h, i, j);
          assert ColumnRows(data, w, h, i, j + 1) == ColumnRows(data, w, h, i, j) + [particle];
          UpdateTwice(old(rightImgDataList), index, ColumnRows(data, w, h, i, j),
                      ColumnRows(data, w, h, i, j + 1));
          rightImgDataList := rightImgDataList[index := rightImgDataList[index] + [particle]];
        } else {
          assert ColumnRows(data, w, h, i, j + 1) == ColumnRows(data, w, h, i, j);
        }
      }
    }
  }
}
