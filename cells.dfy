/** The three cell alphabets of the generator and their colour maps.
    A cell is a value: a single bit, a pair of bits ("quad") or a triple of
    bits ("RGB"). Each alphabet has a total colour lookup; the inverse tables
    below are an independent statement of the same maps, and the lemmas prove
    that each colour lookup is a bijection onto its alphabet's colours. */
module Cells {

  datatype Option<+T> = None | Some(value: T)

  /** The eight named terminal colours. Their escape codes belong to the
      renderer, which is not part of this model. */
  datatype Color = Black | White | Red | Green | Blue | Yellow | Magenta | Cyan

  /** One closed sum type for the three alphabets. The field names `g` and
      `rb` of a quad cell are bit-position labels, not colour channels. */
  datatype Cell =
    | Binary(state: bool)
    | Quad(g: bool, rb: bool)
    | Rgb(r: bool, g: bool, b: bool)

  type BinaryCell = c: Cell | c.Binary? witness Binary(false)
  type QuadCell = c: Cell | c.Quad? witness Quad(false, false)
  type RgbCell = c: Cell | c.Rgb? witness Rgb(false, false, false)

  /** The weighted sum 4r + 2g + b, accumulated one bit at a time.
      It always lies in [0, 7] and each bit can be read back from it. */
  function RgbSum(r: bool, g: bool, b: bool): (sum: int)
    ensures 0 <= sum <= 7
    ensures r == (sum >= 4) && g == (sum % 4 >= 2) && b == (sum % 2 == 1)
  {
    var s0 := 0;
    var s1 := if r then s0 + 4 else s0;
    var s2 := if g then s1 + 2 else s1;
    if b then s2 + 1 else s2
  }

  /** The `when` table of the RGB colour getter, with its fallback arm.
      On the eight sums it can meet, the colour cube reads the sum's bits
      back from the colour, so no two sums share a colour. */
  function SumColor(sum: int): (col: Color)
    ensures 0 <= sum <= 7 ==> RgbOfColor(col) == Rgb(sum >= 4, sum % 4 >= 2, sum % 2 == 1)
  {
    match sum
    case 0 => Black
    case 4 => Red
    case 2 => Green
    case 6 => Yellow
    case 1 => Blue
    case 5 => Magenta
    case 3 => Cyan
    case 7 => White
    case _ => Black  // the fallback arm
  }

  /** The colour of a cell, dispatched on its alphabet. Every cell is read
      back from its colour by its alphabet's reference table, so the RGB
      getter never reaches its fallback arm. */
  function ColorOf(c: Cell): (col: Color)
    ensures c.Binary? ==> BinaryOfColor(col) == Some(c)
    ensures c.Quad? ==> QuadOfColor(col) == Some(c)
    ensures c.Rgb? ==> RgbOfColor(col) == c
  {
    match c
    case Binary(state) => if state then White else Black
    case Quad(g, rb) =>
      if g then (if rb then Yellow else Green)
      else (if rb then Red else Blue)
    case Rgb(r, g, b) => SumColor(RgbSum(r, g, b))
  }

  /** Reference table: which binary cell shows a colour, if any. */
  function BinaryOfColor(col: Color): Option<Cell>
  {
    match col
    case White => Some(Binary(true))
    case Black => Some(Binary(false))
    case _ => None
  }

  /** Reference table: which quad cell shows a colour, if any. */
  function QuadOfColor(col: Color): Option<Cell>
  {
    match col
    case Blue => Some(Quad(false, false))
    case Red => Some(Quad(false, true))
    case Green => Some(Quad(true, false))
    case Yellow => Some(Quad(true, true))
    case _ => None
  }

  /** Reference table: the standard 3-bit colour cube. */
  function RgbOfColor(col: Color): Cell
  {
    match col
    case Black => Rgb(false, false, false)
    case Blue => Rgb(false, false, true)
    case Green => Rgb(false, true, false)
    case Cyan => Rgb(false, true, true)
    case Red => Rgb(true, false, false)
    case Magenta => Rgb(true, false, true)
    case Yellow => Rgb(true, true, false)
    case White => Rgb(true, true, true)
  }

  /** The binary colour map is a bijection between the two binary cells and
      {Black, White}: white exactly when the state is set. */
  lemma BinaryColorBijection()
    ensures forall c: BinaryCell :: BinaryOfColor(ColorOf(c)) == Some(c)
    ensures forall c: BinaryCell :: (ColorOf(c) == White) == c.state
    ensures forall col ::
      BinaryOfColor(col).Some? == (col == Black || col == White)
    ensures forall col :: BinaryOfColor(col).Some? ==>
      BinaryOfColor(col).value.Binary? && ColorOf(BinaryOfColor(col).value) == col
  {
  }

  /** The quad colour map is a bijection between the four quad cells and
      {Blue, Red, Green, Yellow}. */
  lemma QuadColorBijection()
    ensures forall c: QuadCell :: QuadOfColor(ColorOf(c)) == Some(c)
    ensures forall col ::
      QuadOfColor(col).Some? == (col == Blue || col == Red || col == Green || col == Yellow)
    ensures forall col :: QuadOfColor(col).Some? ==>
      QuadOfColor(col).value.Quad? && ColorOf(QuadOfColor(col).value) == col
  {
  }

  /** The RGB colour map is a bijection between the eight RGB cells and the
      eight colours. */
  lemma RgbColorBijection()
    ensures forall c: RgbCell :: RgbOfColor(ColorOf(c)) == c
    ensures forall col :: RgbOfColor(col).Rgb? && ColorOf(RgbOfColor(col)) == col
    ensures forall c: RgbCell, d: RgbCell :: ColorOf(c) == ColorOf(d) ==> c == d
  {
  }
}
