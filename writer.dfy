/**
 * The data side of the EEPROM writer (writer.py): packing the '0' and '1'
 * characters of a text file into bytes, most significant bit first, and the
 * bytes sent to the programmer over the serial port. The port itself, the
 * reading of files and the progress messages are not part of this model: a
 * file is its name and its text, and the serial writes are the list of byte
 * strings the writer sends, in order.
 */
module Writer {
  import opened Wrappers
  import FileUtils
  import Bits

  /** Values that are all binary digits. */
  predicate IsBits(bits: seq<int>) {
    forall i :: 0 <= i < |bits| ==> bits[i] == 0 || bits[i] == 1
  }

  /** The digit a character contributes: 0 for '0', 1 for '1', none for
      any other character. */
  function Digit(c: char): seq<int> {
    if c == '0' then [0] else if c == '1' then [1] else []
  }

  /** The list `bits` built by the loop over the text. */
  function BinaryDigits(text: string): (bits: seq<int>)
    ensures IsBits(bits) && |bits| <= |text|
  {
    if |text| == 0 then []
    else BinaryDigits(text[..|text| - 1]) + Digit(text[|text| - 1])
  }

  /** The digits of two texts one after the other are the digits of each. */
  lemma {:induction false} BinaryDigitsAppend(a: string, b: string)
    ensures BinaryDigits(a + b) == BinaryDigits(a) + BinaryDigits(b)
    decreases |b|
  {
    if |b| == 0 {
      assert a + b == a;
    } else {
      var b' := b[..|b| - 1];
      assert (a + b)[..|a + b| - 1] == a + b';
      assert (a + b)[|a + b| - 1] == b[|b| - 1];
      BinaryDigitsAppend(a, b');
    }
  }

  /** Every character other than '0' and '1' is ignored. */
  lemma {:induction false} OtherCharactersIgnored(a: string, c: char, b: string)
    requires c != '0' && c != '1'
    ensures BinaryDigits(a + [c] + b) == BinaryDigits(a + b)
  {
    BinaryDigitsAppend(a + [c], b);
    assert (a + [c])[..|a|] == a;
    assert BinaryDigits(a + [c]) == BinaryDigits(a) + Digit(c);
    BinaryDigitsAppend(a, b);
  }

  /** `math.ceil(len(bits) / 8)`: the number of bytes. */
  function Count(bits: seq<int>): nat {
    (|bits| + 7) / 8
  }

  /** `min(8, len(bits) - 8*i)`: the bits of byte i. */
  function Width(bits: seq<int>, i: nat): nat
    requires i < Count(bits)
  {
    if |bits| - 8 * i < 8 then |bits| - 8 * i else 8
  }

  /** The bits that go into byte i. */
  function Group(bits: seq<int>, i: nat): (g: seq<int>)
    requires i < Count(bits)
    ensures 1 <= |g| <= 8 && |g| == Width(bits, i)
  {
    bits[8 * i..8 * i + Width(bits, i)]
  }

  /** The sum of `g[k] << (7 - k)` over the first b bits of a group. */
  function Weighted(g: seq<int>, b: nat): int
    requires b <= |g| <= 8
  {
    if b == 0 then 0 else Weighted(g, b - 1) + g[b - 1] * Bits.Pow2(8 - b)
  }

  /** What `read_data_from_txt` makes of a list of bits: byte i holds bits
      8i to 8i+7, the first of them as its highest bit, and the last byte
      is padded with zeros when the bits do not fill it. */
  function Pack(bits: seq<int>): (data: seq<int>)
    ensures |data| == Count(bits)
  {
    seq(Count(bits), i requires 0 <= i < Count(bits) => Weighted(Group(bits, i), Width(bits, i)))
  }

  /** The partial sums of a group of bits stay within a byte and leave
      the bits still to come free. */
  lemma {:induction false} WeightedBound(g: seq<int>, b: nat)
    requires b <= |g| <= 8 && IsBits(g)
    ensures 0 <= Weighted(g, b) <= 256 - Bits.Pow2(8 - b)
  {
    if b > 0 {
      WeightedBound(g, b - 1);
      var p := Bits.Pow2(8 - b);
      assert Bits.Pow2(9 - b) == 2 * p;
      assert Weighted(g, b) == Weighted(g, b - 1) + g[b - 1] * p;
      if g[b - 1] == 0 {
        assert g[b - 1] * p == 0;
      } else {
        assert g[b - 1] * p == p;
      }
    }
  }

  /** Every packed value is a byte, so `bytes(data)` never raises. */
  lemma {:induction false} PackedBytes(bits: seq<int>)
    requires IsBits(bits)
    ensures forall i :: 0 <= i < |Pack(bits)| ==> 0 <= Pack(bits)[i] <= 255
  {
    forall i | 0 <= i < |Pack(bits)|
      ensures 0 <= Pack(bits)[i] <= 255
    {
      WeightedBound(Group(bits, i), Width(bits, i));
    }
  }

  /** The value of a list of bits, the first one highest. */
  function Horner(s: seq<int>): int {
    if |s| == 0 then 0 else 2 * Horner(s[..|s| - 1]) + s[|s| - 1]
  }

  /** The n lowest bits of v, the highest first. */
  function BitsOf(v: int, n: nat): (r: seq<int>)
    ensures |r| == n
    decreases n
  {
    if n == 0 then [] else BitsOf(v / 2, n - 1) + [v % 2]
  }

  /** n zeros. */
  function Zeros(n: nat): (r: seq<int>)
    ensures |r| == n
  {
    if n == 0 then [] else Zeros(n - 1) + [0]
  }

  /** The bits of the bytes, each byte highest bit first. */
  function Unpack(data: seq<int>, j: nat): seq<int>
    decreases |data| - j
  {
    if j >= |data| then [] else BitsOf(data[j], 8) + Unpack(data, j + 1)
  }

  lemma {:induction false} HornerNatural(s: seq<int>)
    requires IsBits(s)
    ensures Horner(s) >= 0
  {
    if |s| > 0 {
      HornerNatural(s[..|s| - 1]);
    }
  }

  /** The bits of the value of a list of bits are that list. */
  lemma {:induction false} BitsOfHorner(s: seq<int>)
    requires IsBits(s)
    ensures BitsOf(Horner(s), |s|) == s
  {
    if |s| > 0 {
      var s' := s[..|s| - 1];
      HornerNatural(s');
      BitsOfHorner(s');
      assert Horner(s) / 2 == Horner(s') && Horner(s) % 2 == s[|s| - 1];
      assert s == s' + [s[|s| - 1]];
    }
  }

  /** Multiplying by 2 to the m appends m zero bits. */
  lemma {:induction false} ShiftedBits(v: int, n: nat, m: nat)
    requires v >= 0
    ensures BitsOf(v * Bits.Pow2(m), n + m) == BitsOf(v, n) + Zeros(m)
  {
    if m > 0 {
      var w := v * Bits.Pow2(m - 1);
      assert v * Bits.Pow2(m) == w * 2;
      assert (w * 2) / 2 == w && (w * 2) % 2 == 0;
      ShiftedBits(v, n, m - 1);
    }
  }

  /** The partial sums are the value of the bits so far, shifted into the
      top of the byte. */
  lemma {:induction false} WeightedHorner(g: seq<int>, b: nat)
    requires b <= |g| <= 8
    ensures Weighted(g, b) == Horner(g[..b]) * Bits.Pow2(8 - b)
  {
    if b > 0 {
      WeightedHorner(g, b - 1);
      var p := Bits.Pow2(8 - b);
      var h := Horner(g[..b - 1]);
      assert g[..b][..b - 1] == g[..b - 1];
      assert Bits.Pow2(9 - b) == 2 * p;
      assert h * (2 * p) + g[b - 1] * p == (2 * h + g[b - 1]) * p;
    }
  }

  /** The bits of a packed byte are its group followed by the padding. */
  lemma {:induction false} ByteBits(g: seq<int>)
    requires IsBits(g) && |g| <= 8
    ensures BitsOf(Weighted(g, |g|), 8) == g + Zeros(8 - |g|)
  {
    WeightedHorner(g, |g|);
    assert g[..|g|] == g;
    HornerNatural(g);
    ShiftedBits(Horner(g), |g|, 8 - |g|);
    BitsOfHorner(g);
  }

  /** The bits padded with zeros to a whole number of bytes. */
  function Padded(bits: seq<int>): (r: seq<int>)
    ensures |r| == 8 * Count(bits)
  {
    bits + Zeros(8 * Count(bits) - |bits|)
  }

  /** Packing loses nothing: reading the bytes back, highest bit first,
      gives the bits followed by the zeros that pad the last byte. */
  lemma {:induction false} PackRoundTrip(bits: seq<int>)
    requires IsBits(bits)
    ensures Unpack(Pack(bits), 0) == Padded(bits)
  {
    UnpackFrom(bits, 0);
  }

  lemma {:induction false} UnpackFrom(bits: seq<int>, j: nat)
    requires IsBits(bits) && j <= Count(bits)
    ensures Unpack(Pack(bits), j) == Padded(bits)[8 * j..]
    decreases Count(bits) - j
  {
    if j < Count(bits) {
      var g := Group(bits, j);
      GroupBits(bits, j);
      ByteBits(g);
      UnpackFrom(bits, j + 1);
      PaddedByte(bits, j);
      var p := Padded(bits);
      assert p[8 * j..] == p[8 * j..8 * j + 8] + p[8 * j + 8..];
    }
  }

  lemma GroupBits(bits: seq<int>, j: nat)
    requires IsBits(bits) && j < Count(bits)
    ensures IsBits(Group(bits, j))
  {
    var g := Group(bits, j);
    forall k | 0 <= k < |g| ensures g[k] == 0 || g[k] == 1 {
      assert g[k] == bits[8 * j + k];
    }
  }

  /** Byte j of the padded bits is group j and its padding. */
  lemma PaddedByte(bits: seq<int>, j: nat)
    requires j < Count(bits)
    ensures Padded(bits)[8 * j..8 * j + 8] == Group(bits, j) + Zeros(8 - Width(bits, j))
  {
    var g := Group(bits, j);
    var p := Padded(bits);
    forall i | 8 * j <= i < 8 * j + 8 ensures p[i] == (g + Zeros(8 - |g|))[i - 8 * j] {
      if i - 8 * j < |g| {
        assert p[i] == bits[i];
      } else {
        ZeroAt(8 * Count(bits) - |bits|, i - |bits|);
        ZeroAt(8 - |g|, i - 8 * j - |g|);
      }
    }
  }

  lemma {:induction false} ZeroAt(n: nat, k: nat)
    requires k < n
    ensures Zeros(n)[k] == 0
  {
    if k < n - 1 {
      ZeroAt(n - 1, k);
    }
  }

  /** `v >> m`: m halvings. */
  function Shift(v: int, m: nat): int
    decreases m
  {
    if m == 0 then v else Shift(v / 2, m - 1)
  }

  /** Element k of the n bits of v is bit n-1-k of v. */
  lemma {:induction false} BitsOfAt(v: int, n: nat, k: nat)
    requires k < n
    ensures BitsOf(v, n)[k] == Shift(v, n - 1 - k) % 2
    decreases n
  {
    if k < n - 1 {
      BitsOfAt(v / 2, n - 1, k);
    }
  }

  /** Bit 7-k of byte i is bit k of group i, and the bits after the last
      group are zeros. */
  lemma BitPosition(bits: seq<int>, i: nat, k: nat)
    requires IsBits(bits) && i < Count(bits) && k < 8
    ensures Shift(Pack(bits)[i], 7 - k) % 2 == if 8 * i + k < |bits| then bits[8 * i + k] else 0
  {
    var g := Group(bits, i);
    var v := Pack(bits)[i];
    var p := Padded(bits);
    assert v == Weighted(g, |g|);
    GroupBits(bits, i);
    ByteBits(g);
    PaddedByte(bits, i);
    assert BitsOf(v, 8) == p[8 * i..8 * i + 8];
    BitsOfAt(v, 8, k);
    assert Shift(v, 7 - k) % 2 == p[8 * i + k];
    if 8 * i + k >= |bits| {
      ZeroAt(8 * Count(bits) - |bits|, 8 * i + k - |bits|);
    }
  }

  /** The message read_data_from_txt gives for a file that is no .txt file. */
  const TxtMessage := "File must have '.txt' extension"

  /** `read_data_from_txt(file)`: the packed bits of a .txt file, or the
      FileError of `verify_file`. */
  method ReadDataFromText(name: string, text: string) returns (r: Result<seq<int>>)
    ensures var v := FileUtils.VerifyFile(name, "txt", TxtMessage);
      r == if v.Failure? then Failure(v.error) else Success(Pack(BinaryDigits(text)))
  {
    var checked := FileUtils.VerifyFile(name, "txt", TxtMessage);
    if checked.Failure? {
      return Failure(checked.error);
    }
    var bits := CollectBits(text);
    var data := PackBits(bits);
    r := Success(data[..]);
  }

  /** The loop `for c in text` that collects the bits. */
  method CollectBits(text: string) returns (bits: seq<int>)
    ensures bits == BinaryDigits(text)
  {
    bits := [];
    for i := 0 to |text|
      invariant bits == BinaryDigits(text[..i])
    {
      assert text[..i + 1][..i] == text[..i];
      if text[i] == '0' {
        bits := bits + [0];
      } else if text[i] == '1' {
        bits := bits + [1];
      }
    }
    assert text[..|text|] == text;
  }

  /** The nested loops that add each bit into its byte. */
  method PackBits(bits: seq<int>) returns (data: array<int>)
    ensures fresh(data) && data[..] == Pack(bits)
  {
    var n := (|bits| + 7) / 8;
    data := new int[n](_ => 0);
    for i := 0 to n
      invariant forall j :: 0 <= j < i ==> data[j] == Pack(bits)[j]
      invariant forall j :: i <= j < n ==> data[j] == 0
    {
      var width := if |bits| - 8 * i < 8 then |bits| - 8 * i else 8;
      for bit := 0 to width
        invariant forall j :: 0 <= j < i ==> data[j] == Pack(bits)[j]
        invariant forall j :: i < j < n ==> data[j] == 0
        invariant data[i] == Weighted(Group(bits, i), bit)
      {
        data[i] := data[i] + bits[bit + 8 * i] * Bits.Pow2(7 - bit);
      }
    }
  }

  /** The byte strings of a header: a command letter and the count less
      one, high byte first. */
  predicate Encodes(h: seq<int>, letter: char, count: int) {
    |h| == 3 && h[0] == letter as int
    && 0 <= h[1] < 256 && 0 <= h[2] < 256 && h[1] * 256 + h[2] == count - 1
  }

  /** `bytes([ord(letter), (n - 1) >> 8, (n - 1) % 256])`, which raises
      ValueError unless every value is a byte. */
  function Header(letter: char, n: int): Result<seq<int>> {
    var h := [letter as int, (n - 1) / 256, (n - 1) % 256];
    if 0 <= h[0] < 256 && 0 <= h[1] < 256 && 0 <= h[2] < 256 then Success(h) else Failure(Python("ValueError"))
  }

  /** The header of `write_data`: 'w' and the count less one, for 1 to
      65536 bytes; ValueError otherwise. */
  function WriteHeader(n: int): (r: Result<seq<int>>)
    ensures r.Success? <==> 1 <= n <= 65536
    ensures r.Success? ==> Encodes(r.value, 'w', n)
    ensures r.Failure? ==> r.error == Python("ValueError")
  {
    Header('w', n)
  }

  /** The header of `read_data`: 'r' and the count less one, for 1 to
      65536 bytes; ValueError otherwise. */
  function ReadHeader(n: int): (r: Result<seq<int>>)
    ensures r.Success? <==> 1 <= n <= 65536
    ensures r.Success? ==> Encodes(r.value, 'r', n)
    ensures r.Failure? ==> r.error == Python("ValueError")
  {
    Header('r', n)
  }

  /** The byte strings one after the other. */
  function Concat(ws: seq<seq<int>>): seq<int> {
    if |ws| == 0 then [] else Concat(ws[..|ws| - 1]) + ws[|ws| - 1]
  }

  /** The writes of `write_data`: the header, then the data in chunks of 64
      bytes, the last one holding what is left. */
  method WriteData(data: seq<int>) returns (r: Result<seq<seq<int>>>)
    ensures r.Success? <==> 1 <= |data| <= 65536
    ensures r.Failure? ==> r.error == Python("ValueError")
    ensures r.Success? ==> |r.value| >= 2 && r.value[0] == WriteHeader(|data|).value && Concat(r.value[1..]) == data
    ensures r.Success? ==> forall k :: 1 <= k < |r.value| ==> 1 <= |r.value[k]| <= 64 && (k < |r.value| - 1 ==> |r.value[k]| == 64)
  {
    var header :- WriteHeader(|data|);
    var writes := [header];
    var i := 0;
    while i < |data|
      invariant |writes| >= 1 && writes[0] == header && i == 64 * (|writes| - 1)
      invariant Concat(writes[1..]) == data[..if i < |data| then i else |data|]
      invariant forall k :: 1 <= k < |writes| ==> 1 <= |writes[k]| <= 64 && (k < |writes| - 1 || i <= |data| ==> |writes[k]| == 64)
      decreases |data| - i
    {
      var chunk := data[i..if i + 64 < |data| then i + 64 else |data|];
      assert (writes + [chunk])[1..] == writes[1..] + [chunk];
      assert (writes[1..] + [chunk])[..|writes| - 1] == writes[1..];
      assert data[..if i + 64 < |data| then i + 64 else |data|] == data[..i] + chunk;
      writes := writes + [chunk];
      i := i + 64;
    }
    assert data[..|data|] == data;
    r := Success(writes);
  }
}
