/**
 * The packed RGBA colour of color.hh. A `Color` is a union of one `uint32_t`
 * and four `uint8_t` fields: the struct is `r, g, b, a` on a little-endian
 * machine and `a, b, g, r` on a big-endian one, so that on either byte order
 * red is bits 0-7 of the packed value, green 8-15, blue 16-23 and alpha
 * 24-31. The model keeps the union as its four bytes of storage, in memory
 * order, and reads and writes both views of it through that storage.
 *
 * Words and bytes are integers in range; a shift by 8k of a byte is
 * multiplication by 256^k, and `|` of bytes shifted to disjoint positions is
 * their sum.
 */
module Colors {
  import IntVectors
  import Vectors

  type Byte = x: int | 0 <= x < 0x100
  type Word = x: int | 0 <= x < 0x1_0000_0000

  /** The byte order of the machine: `type::endian::native`. */
  datatype Endian = Little | Big

  datatype Channel = R | G | B | A

  /** The low byte of a number. */
  function Low(x: nat): Byte
  {
    x % 0x100
  }

  /** A number shifted right by one byte. */
  function High(x: nat): nat
  {
    x / 0x100
  }

  /** A number is its low byte plus 256 times the rest. */
  lemma LowHigh(x: nat)
    ensures x == Low(x) + 0x100 * High(x)
  {
  }

  /** ... and that decomposition is the only one. */
  lemma LowHighUnique(x: nat, r: Byte, k: nat)
    requires x == r + 0x100 * k
    ensures Low(x) == r && High(x) == k
  {
  }

  /** The channel's byte of a packed value: red is bits 0-7, green 8-15, blue 16-23, alpha 24-31. */
  function ChannelOf(x: Word, ch: Channel): Byte
  {
    match ch
    case R => Low(x)
    case G => Low(High(x))
    case B => Low(High(High(x)))
    case A => Low(High(High(High(x))))
  }

  /** The packed value of the four channels: `r | g << 8 | b << 16 | a << 24`. */
  function Pack(r: Byte, g: Byte, b: Byte, a: Byte): (x: Word)
    ensures x == r + 0x100 * g + 0x1_0000 * b + 0x100_0000 * a
  {
    r + 0x100 * (g + 0x100 * (b + 0x100 * a))
  }

  /** Packing puts each channel where `ChannelOf` finds it. */
  lemma PackChannels(r: Byte, g: Byte, b: Byte, a: Byte)
    ensures var x := Pack(r, g, b, a);
            ChannelOf(x, R) == r && ChannelOf(x, G) == g && ChannelOf(x, B) == b && ChannelOf(x, A) == a
  {
    LowHighUnique(Pack(r, g, b, a), r, g + 0x100 * (b + 0x100 * a));
    LowHighUnique(g + 0x100 * (b + 0x100 * a), g, b + 0x100 * a);
    LowHighUnique(b + 0x100 * a, b, a);
    LowHighUnique(a, a, 0);
  }

  /** Every word is the packing of its own channels. */
  lemma ChannelsPack(x: Word)
    ensures Pack(ChannelOf(x, R), ChannelOf(x, G), ChannelOf(x, B), ChannelOf(x, A)) == x
  {
    LowHigh(x);
    LowHigh(High(x));
    LowHigh(High(High(x)));
    LowHigh(High(High(High(x))));
  }

  /** The four bytes a `uint32_t` occupies in memory, lowest address first. */
  function StorageOf(x: Word, e: Endian): (m: seq<Byte>)
    ensures |m| == 4
  {
    match e
    case Little => [ChannelOf(x, R), ChannelOf(x, G), ChannelOf(x, B), ChannelOf(x, A)]
    case Big => [ChannelOf(x, A), ChannelOf(x, B), ChannelOf(x, G), ChannelOf(x, R)]
  }

  /** The `uint32_t` that four bytes of memory, lowest address first, hold. */
  function LoadWord(m: seq<Byte>, e: Endian): Word
    requires |m| == 4
  {
    match e
    case Little => Pack(m[0], m[1], m[2], m[3])
    case Big => Pack(m[3], m[2], m[1], m[0])
  }

  /** Storing a word and loading it back gives the word. */
  lemma LoadStorage(x: Word, e: Endian)
    ensures LoadWord(StorageOf(x, e), e) == x
  {
    ChannelsPack(x);
  }

  /** Loading four bytes and storing the word gives the bytes. */
  lemma StorageOfLoad(m: seq<Byte>, e: Endian)
    requires |m| == 4
    ensures StorageOf(LoadWord(m, e), e) == m
  {
    match e
    case Little => PackChannels(m[0], m[1], m[2], m[3]);
    case Big => PackChannels(m[3], m[2], m[1], m[0]);
  }

  /**
   * Where the union's struct keeps a channel: `rgba_t` (`r, g, b, a`) on a
   * little-endian machine, `abgr_t` (`a, b, g, r`) on a big-endian one.
   */
  function FieldOffset(ch: Channel, e: Endian): (k: nat)
    ensures k < 4
  {
    match (e, ch)
    case (Little, R) => 0
    case (Little, G) => 1
    case (Little, B) => 2
    case (Little, A) => 3
    case (Big, A) => 0
    case (Big, B) => 1
    case (Big, G) => 2
    case (Big, R) => 3
  }

  /** On both byte orders the struct field of a channel aliases that channel's bits of the word. */
  lemma FieldIsChannel(x: Word, ch: Channel, e: Endian)
    ensures StorageOf(x, e)[FieldOffset(ch, e)] == ChannelOf(x, ch)
  {
  }

  /** The word with one channel replaced by b. */
  function WithChannel(x: Word, ch: Channel, b: Byte): Word
  {
    match ch
    case R => Pack(b, ChannelOf(x, G), ChannelOf(x, B), ChannelOf(x, A))
    case G => Pack(ChannelOf(x, R), b, ChannelOf(x, B), ChannelOf(x, A))
    case B => Pack(ChannelOf(x, R), ChannelOf(x, G), b, ChannelOf(x, A))
    case A => Pack(ChannelOf(x, R), ChannelOf(x, G), ChannelOf(x, B), b)
  }

  /** Replacing one channel sets it and leaves the other three alone. */
  lemma WithChannelChannels(x: Word, ch: Channel, b: Byte)
    ensures ChannelOf(WithChannel(x, ch, b), R) == if ch == R then b else ChannelOf(x, R)
    ensures ChannelOf(WithChannel(x, ch, b), G) == if ch == G then b else ChannelOf(x, G)
    ensures ChannelOf(WithChannel(x, ch, b), B) == if ch == B then b else ChannelOf(x, B)
    ensures ChannelOf(WithChannel(x, ch, b), A) == if ch == A then b else ChannelOf(x, A)
  {
    match ch
    case R => PackChannels(b, ChannelOf(x, G), ChannelOf(x, B), ChannelOf(x, A));
    case G => PackChannels(ChannelOf(x, R), b, ChannelOf(x, B), ChannelOf(x, A));
    case B => PackChannels(ChannelOf(x, R), ChannelOf(x, G), b, ChannelOf(x, A));
    case A => PackChannels(ChannelOf(x, R), ChannelOf(x, G), ChannelOf(x, B), b);
  }

  /** Overwriting a channel's struct field stores the word with that channel replaced. */
  lemma SetChannelStorage(x: Word, ch: Channel, b: Byte, e: Endian)
    ensures StorageOf(x, e)[FieldOffset(ch, e) := b] == StorageOf(WithChannel(x, ch, b), e)
  {
    WithChannelChannels(x, ch, b);
  }

  /** `static_cast<uint8_t>` of an `int`: reduction modulo 256. */
  function IntToByte(i: int): (b: Byte)
    ensures (i - b) % 0x100 == 0
  {
    i % 0x100
  }

  /**
   * `static_cast<uint8_t>` of a floating-point value: truncation toward zero,
   * defined only when the truncated value fits in a byte.
   */
  function RealToByte(x: real): (b: Byte)
    requires -1.0 < x < 256.0
    ensures b as real <= x < b as real + 1.0 || (x < 0.0 && b == 0)
  {
    if x < 0.0 then 0 else x.Floor
  }

  // ---------------------------------------------------------------------
  // The named colours
  // ---------------------------------------------------------------------

  datatype Named = Black | Blue | Green | Cyan | Red | Magenta | Brown | LightGray
                 | DarkGray | LightBlue | LightGreen | LightCyan | LightRed | LightMagenta
                 | Yellow | White

  /** The enumerator's value. */
  function NamedValue(n: Named): Word
  {
    match n
    case Black => 0x000000
    case Blue => 0xaa0000
    case Green => 0x00aa00
    case Cyan => 0xaaaa00
    case Red => 0x0000aa
    case Magenta => 0xaa00aa
    case Brown => 0x0055aa
    case LightGray => 0xaaaaaa
    case DarkGray => 0x555555
    case LightBlue => 0xff5555
    case LightGreen => 0x55ff55
    case LightCyan => 0xffff55
    case LightRed => 0x5555ff
    case LightMagenta => 0xff55ff
    case Yellow => 0x55ffff
    case White => 0xffffff
  }

  /** The sixteen-colour palette by channel: the intensity of red, green and blue each name stands for. */
  function Intensities(n: Named): (rgb: (Byte, Byte, Byte))
  {
    match n
    case Black => (0x00, 0x00, 0x00)
    case Blue => (0x00, 0x00, 0xaa)
    case Green => (0x00, 0xaa, 0x00)
    case Cyan => (0x00, 0xaa, 0xaa)
    case Red => (0xaa, 0x00, 0x00)
    case Magenta => (0xaa, 0x00, 0xaa)
    case Brown => (0xaa, 0x55, 0x00)
    case LightGray => (0xaa, 0xaa, 0xaa)
    case DarkGray => (0x55, 0x55, 0x55)
    case LightBlue => (0x55, 0x55, 0xff)
    case LightGreen => (0x55, 0xff, 0x55)
    case LightCyan => (0x55, 0xff, 0xff)
    case LightRed => (0xff, 0x55, 0x55)
    case LightMagenta => (0xff, 0x55, 0xff)
    case Yellow => (0xff, 0xff, 0x55)
    case White => (0xff, 0xff, 0xff)
  }

  /** Under the packed layout every enumerator has the intensities its name says, and alpha 0. */
  lemma NamedChannels(n: Named)
    ensures var (r, g, b) := Intensities(n);
            NamedValue(n) == Pack(r, g, b, 0)
  {
  }

  // ---------------------------------------------------------------------
  // The object
  // ---------------------------------------------------------------------

  class Color {
    /** The machine's byte order. */
    const native: Endian
    /** The union `c`: four bytes of storage, lowest address first. */
    const c: array<Byte>

    ghost predicate Valid()
      reads this
    {
      c.Length == 4
    }

    /** `operator uint32_t`: the union read as a word. */
    function Value(): (x: Word)
      requires Valid()
      reads this, c
      ensures StorageOf(x, native) == c[..]
    {
      StorageOfLoad(c[..], native);
      LoadWord(c[..], native)
    }

    /** `red()`, `green()`, `blue()`, `alpha()`: the channel's struct field of the union. */
    function Get(ch: Channel): (b: Byte)
      requires Valid()
      reads this, c
      ensures b == ChannelOf(Value(), ch)
    {
      FieldIsChannel(Value(), ch, native);
      c[FieldOffset(ch, native)]
    }

    /** `Color() = default`: the union is left uninitialised, so its bytes are unknown. */
    constructor Default(native: Endian)
      ensures Valid() && fresh(c) && this.native == native
    {
      this.native := native;
      c := new Byte[4];
    }

    /** `Color(uint32_t rgba)`. */
    constructor FromWord(native: Endian, rgba: Word)
      ensures Valid() && fresh(c) && this.native == native
      ensures Value() == rgba
    {
      this.native := native;
      var m := StorageOf(rgba, native);
      c := new Byte[4](i requires 0 <= i < 4 => m[i]);
      LoadStorage(rgba, native);
    }

    /** `Color(r, g, b, a = 0)`: delegates to `Color(uint32_t)` with the channels shifted into place. */
    constructor (native: Endian, r: Byte, g: Byte, b: Byte, a: Byte)
      ensures Valid() && fresh(c) && this.native == native
      ensures Value() == Pack(r, g, b, a)
    {
      this.native := native;
      var m := StorageOf(Pack(r, g, b, a), native);
      c := new Byte[4](i requires 0 <= i < 4 => m[i]);
      LoadStorage(Pack(r, g, b, a), native);
    }

    /** `Color(const Color&)`. */
    constructor Copy(other: Color)
      requires other.Valid()
      ensures Valid() && fresh(c) && native == other.native && c[..] == other.c[..]
    {
      native := other.native;
      c := new Byte[4](i requires 0 <= i < 4 reads other, other.c => other.c[i]);
    }

    /** `operator=(const Color&)` between colours of the same machine; self-assignment included. */
    method Assign(other: Color)
      requires Valid() && other.Valid() && other.native == native
      modifies c
      ensures c[..] == old(other.c[..]) && Value() == old(other.Value())
    {
      var m := other.c[..];
      c[0], c[1], c[2], c[3] := m[0], m[1], m[2], m[3];
      assert c[..] == m;
    }

    /** Assignment through `operator uint32_t&`. */
    method SetValue(rgba: Word)
      requires Valid()
      modifies c
      ensures Value() == rgba
    {
      var m := StorageOf(rgba, native);
      c[0], c[1], c[2], c[3] := m[0], m[1], m[2], m[3];
      assert c[..] == m;
      LoadStorage(rgba, native);
    }

    /** Assignment through the reference `red()`, `green()`, `blue()` or `alpha()` returns: one byte of storage. */
    method Set(ch: Channel, b: Byte)
      requires Valid()
      modifies c
      ensures Value() == WithChannel(old(Value()), ch, b)
      ensures Get(ch) == b && forall d :: d != ch ==> Get(d) == old(Get(d))
    {
      ghost var x := Value();
      FieldIsChannel(x, ch, native);
      c[FieldOffset(ch, native)] := b;
      SetChannelStorage(x, ch, b, native);
      assert c[..] == StorageOf(WithChannel(x, ch, b), native);
      LoadStorage(WithChannel(x, ch, b), native);
      WithChannelChannels(x, ch, b);
    }
  }

  /** `Color::rgb(r, g, b)`: alpha defaults to 0. */
  method Rgb(native: Endian, r: Byte, g: Byte, b: Byte) returns (col: Color)
    ensures col.Valid() && fresh(col.c)
    ensures col.Get(R) == r && col.Get(G) == g && col.Get(B) == b && col.Get(A) == 0
  {
    col := new Color(native, r, g, b, 0);
    PackChannels(r, g, b, 0);
  }

  /** `Color::rgba(r, g, b, a)`. */
  method Rgba(native: Endian, r: Byte, g: Byte, b: Byte, a: Byte) returns (col: Color)
    ensures col.Valid() && fresh(col.c)
    ensures col.Get(R) == r && col.Get(G) == g && col.Get(B) == b && col.Get(A) == a
  {
    col := new Color(native, r, g, b, a);
    PackChannels(r, g, b, a);
  }

  /** `Color(const Vector<int, 3>&)`: each component cast to a byte, alpha 0. */
  method FromIntVector3(native: Endian, v: IntVectors.Vector) returns (col: Color)
    requires v.e.Length == 3
    ensures col.Valid() && fresh(col.c)
    ensures col.Value() == Pack(IntToByte(v.e[0]), IntToByte(v.e[1]), IntToByte(v.e[2]), 0)
  {
    col := new Color(native, IntToByte(v.e[0]), IntToByte(v.e[1]), IntToByte(v.e[2]), 0);
  }

  /** `Color(const Vector<int, 4>&)`: the fourth component is alpha. */
  method FromIntVector4(native: Endian, v: IntVectors.Vector) returns (col: Color)
    requires v.e.Length == 4
    ensures col.Valid() && fresh(col.c)
    ensures col.Value() == Pack(IntToByte(v.e[0]), IntToByte(v.e[1]), IntToByte(v.e[2]), IntToByte(v.e[3]))
  {
    col := new Color(native, IntToByte(v.e[0]), IntToByte(v.e[1]), IntToByte(v.e[2]), IntToByte(v.e[3]));
  }

  /** `Color(const Vector<real, 3>&)`: components are truncated to bytes. */
  method FromRealVector3(native: Endian, v: Vectors.Vector) returns (col: Color)
    requires v.e.Length == 3 && forall i :: 0 <= i < 3 ==> -1.0 < v.e[i] < 256.0
    ensures col.Valid() && fresh(col.c)
    ensures col.Value() == Pack(RealToByte(v.e[0]), RealToByte(v.e[1]), RealToByte(v.e[2]), 0)
  {
    col := new Color(native, RealToByte(v.e[0]), RealToByte(v.e[1]), RealToByte(v.e[2]), 0);
  }

  /** `Color(const Vector<real, 4>&)`. */
  method FromRealVector4(native: Endian, v: Vectors.Vector) returns (col: Color)
    requires v.e.Length == 4 && forall i :: 0 <= i < 4 ==> -1.0 < v.e[i] < 256.0
    ensures col.Valid() && fresh(col.c)
    ensures col.Value() == Pack(RealToByte(v.e[0]), RealToByte(v.e[1]), RealToByte(v.e[2]), RealToByte(v.e[3]))
  {
    col := new Color(native, RealToByte(v.e[0]), RealToByte(v.e[1]), RealToByte(v.e[2]), RealToByte(v.e[3]));
  }

  /** The packed value 0x11223344 has red 0x44, green 0x33, blue 0x22 and alpha 0x11, on either byte order. */
  lemma ChannelExample()
    ensures ChannelOf(0x11223344, R) == 0x44 && ChannelOf(0x11223344, G) == 0x33
    ensures ChannelOf(0x11223344, B) == 0x22 && ChannelOf(0x11223344, A) == 0x11
  {
    PackChannels(0x44, 0x33, 0x22, 0x11);
  }

  /** Writing 0x55, 0x66, 0x77, 0x88 into red, green, blue and alpha of 0x11223344 gives 0x88776655. */
  lemma ChannelWritesExample()
    ensures WithChannel(WithChannel(WithChannel(WithChannel(0x11223344, R, 0x55), G, 0x66), B, 0x77), A, 0x88)
            == 0x88776655
  {
    ChannelExample();
    var x1 := WithChannel(0x11223344, R, 0x55);
    PackChannels(0x55, 0x33, 0x22, 0x11);
    var x2 := WithChannel(x1, G, 0x66);
    PackChannels(0x55, 0x66, 0x22, 0x11);
    var x3 := WithChannel(x2, B, 0x77);
    PackChannels(0x55, 0x66, 0x77, 0x11);
  }

  /** `rgb(0x11, 0x22, 0x33)`, `rgba(0x11, 0x22, 0x33, 0x44)` and the colours of the vectors (1, 2, 3) and (11, 12, 13, 14). */
  lemma PackExamples()
    ensures Pack(0x11, 0x22, 0x33, 0) == 0x00332211 && Pack(0x11, 0x22, 0x33, 0x44) == 0x44332211
    ensures Pack(RealToByte(1.0), RealToByte(2.0), RealToByte(3.0), 0) == 0x00030201
    ensures Pack(IntToByte(11), IntToByte(12), IntToByte(13), IntToByte(14)) == 0x0E0D0C0B
  {
  }
}
