/** The RAM of the Leon3 processor as the device sees it (grlib_utilgrspw.c): a total map from
    addresses to bytes, holding 32-bit words most significant byte first. */
module Leon3Ram {
  import opened BitOps

  /** A byte that was never written reads as 0. */
  type Mem = map<nat, byte>

  function At(m: Mem, a: nat): byte {
    if a in m then m[a] else 0
  }

  function Read(m: Mem, a: nat, n: nat): (s: seq<byte>)
    ensures |s| == n
    ensures forall i :: 0 <= i < n ==> s[i] == At(m, a + i)
  {
    seq(n, i requires 0 <= i < n => At(m, a + i))
  }

  function Write(m: Mem, a: nat, bytes: seq<byte>): (r: Mem)
    ensures forall x: nat {:trigger At(r, x)} ::
              At(r, x) == if a <= x < a + |bytes| then bytes[x - a] else At(m, x)
  {
    m + map x: nat {:trigger At(m, x)} | a <= x < a + |bytes| :: bytes[x - a]
  }

  /** Two ranges of the RAM without a byte in common. */
  predicate Disjoint(a: nat, n: nat, b: nat, k: nat) {
    n == 0 || k == 0 || a + n <= b || b + k <= a
  }

  // ---- words ----

  /** The number held by some bytes, most significant first. */
  function Number(s: seq<byte>): nat {
    if s == [] then 0 else 0x100 * Number(s[..|s| - 1]) + s[|s| - 1] as int
  }

  /** The n lowest digits of a number to the base 256, most significant first. */
  function Digits(w: nat, n: nat): (s: seq<byte>)
    ensures |s| == n
    decreases w, n
  {
    if n == 0 then [] else Digits(w / 0x100, n - 1) + [(w % 0x100) as byte]
  }

  /** The bytes of a word as the RAM holds them. */
  function BigEndian(w: uint32): (s: seq<byte>)
    ensures |s| == 4
  {
    Digits(w, 4)
  }

  /** The bytes of a word, least significant first, as the host holds them. */
  function LittleEndian(w: uint32): (s: seq<byte>)
    ensures |s| == 4
  {
    [(w % 0x100) as byte, (w / 0x100 % 0x100) as byte, (w / 0x100 / 0x100 % 0x100) as byte,
     (w / 0x100 / 0x100 / 0x100) as byte]
  }

  function WordOf(b0: byte, b1: byte, b2: byte, b3: byte): uint32 {
    0x100_0000 * (b0 as int) + 0x1_0000 * (b1 as int) + 0x100 * (b2 as int) + b3 as int
  }

  lemma NumberOfFour(s: seq<byte>)
    requires |s| == 4
    ensures Number(s) == WordOf(s[0], s[1], s[2], s[3])
  {
    var s3 := s[..3];
    var s2 := s3[..2];
    var s1 := s2[..1];
    assert s1[..0] == [] && s1[0] == s[0] && s2[1] == s[1] && s3[2] == s[2];
    assert Number(s1) == s[0] as int;
    assert Number(s2) == 0x100 * Number(s1) + s[1] as int;
    assert Number(s3) == 0x100 * Number(s2) + s[2] as int;
  }

  lemma FourDigits(w: uint32)
    ensures BigEndian(w)
         == [(w / 0x100 / 0x100 / 0x100) as byte, (w / 0x100 / 0x100 % 0x100) as byte, (w / 0x100 % 0x100) as byte,
             (w % 0x100) as byte]
  {
    var w1 := w / 0x100;
    var w2 := w1 / 0x100;
    var w3 := w2 / 0x100;
    assert Digits(w3 / 0x100, 0) == [] && w3 % 0x100 == w3;
    assert Digits(w3, 1) == [w3 as byte];
    assert Digits(w2, 2) == [w3 as byte, (w2 % 0x100) as byte];
    assert Digits(w1, 3) == [w3 as byte, (w2 % 0x100) as byte, (w1 % 0x100) as byte];
  }

  function ReadWord(m: Mem, a: nat): uint32 {
    NumberOfFour(Read(m, a, 4));
    Number(Read(m, a, 4))
  }

  function WriteWord(m: Mem, a: nat, w: uint32): Mem {
    Write(m, a, BigEndian(w))
  }

  lemma ReadWordIs(m: Mem, a: nat)
    ensures ReadWord(m, a) == WordOf(At(m, a), At(m, a + 1), At(m, a + 2), At(m, a + 3))
  {
    NumberOfFour(Read(m, a, 4));
  }

  lemma WordRoundTrip(w: uint32)
    ensures Number(BigEndian(w)) == w
  {
    FourDigits(w);
    NumberOfFour(BigEndian(w));
    hide BigEndian, Number;
  }

  lemma ReadWritten(m: Mem, a: nat, w: uint32)
    ensures ReadWord(WriteWord(m, a, w), a) == w
  {
    hide BigEndian, Number;
    WordRoundTrip(w);
    assert Read(WriteWord(m, a, w), a, 4) == BigEndian(w);
  }

  /** A word is determined by its four bytes. */
  lemma ReadWordAgrees(m: Mem, m': Mem, a: nat)
    requires AgreeOn(m, m', a, 4)
    ensures ReadWord(m, a) == ReadWord(m', a)
  {
    hide Number;
    ReadAgrees(m, m', a, 4);
  }

  lemma ReadOther(m: Mem, a: nat, w: uint32, x: nat)
    requires x + 4 <= a || a + 4 <= x
    ensures ReadWord(WriteWord(m, a, w), x) == ReadWord(m, x)
  {
    hide BigEndian, ReadWord;
    ReadWordAgrees(m, WriteWord(m, a, w), x);
  }

  lemma ReadWordKept(m: Mem, a: nat, s: seq<byte>, x: nat)
    requires Disjoint(a, |s|, x, 4)
    ensures ReadWord(Write(m, a, s), x) == ReadWord(m, x)
  {
    hide ReadWord;
    ReadWordAgrees(m, Write(m, a, s), x);
  }

  lemma WordWriteFrame(m: Mem, a: nat, w: uint32)
    ensures forall x: nat {:trigger At(WriteWord(m, a, w), x)} :: !(a <= x < a + 4) ==>
        At(WriteWord(m, a, w), x) == At(m, x)
  {
  }

  lemma WriteFrame(m: Mem, a: nat, s: seq<byte>)
    ensures forall x: nat {:trigger At(Write(m, a, s), x)} :: !(a <= x < a + |s|) ==> At(Write(m, a, s), x) == At(m, x)
    ensures Read(Write(m, a, s), a, |s|) == s
  {
  }

  ghost predicate AgreeOn(m: Mem, m': Mem, a: nat, n: nat) {
    forall x: nat {:trigger At(m, x)} {:trigger At(m', x)} :: a <= x < a + n ==> At(m, x) == At(m', x)
  }

  lemma ReadAgrees(m: Mem, m': Mem, a: nat, n: nat)
    requires AgreeOn(m, m', a, n)
    ensures Read(m, a, n) == Read(m', a, n)
  {
  }

  /** Two writes that do not overlap can be done in either order. */
  lemma WritesCommute(m: Mem, a: nat, s: seq<byte>, b: nat, t: seq<byte>)
    requires Disjoint(a, |s|, b, |t|)
    ensures Write(Write(m, a, s), b, t) == Write(Write(m, b, t), a, s)
  {
  }

  // ---- the byte swap ----

  /** Where byte i of an n-byte buffer goes: every full group of four bytes is reversed, and
      so is the shorter group that may be left at the end. */
  function Mirror(n: nat, i: nat): (j: nat)
    requires i < n
    ensures j < n && j / 4 == i / 4
  {
    var g := i / 4 * 4;
    var size := if n - g >= 4 then 4 else n - g;
    g + size - 1 - (i - g)
  }

  lemma MirrorTwice(n: nat, i: nat)
    requires i < n
    ensures Mirror(n, Mirror(n, i)) == i
  {
  }

  function Swapped(s: seq<byte>): (r: seq<byte>)
    ensures |r| == |s|
    ensures forall i :: 0 <= i < |s| ==> r[i] == s[Mirror(|s|, i)]
  {
    seq(|s|, i requires 0 <= i < |s| => s[Mirror(|s|, i)])
  }

  lemma SwappedTwice(s: seq<byte>)
    ensures Swapped(Swapped(s)) == s
  {
    forall i | 0 <= i < |s|
      ensures Swapped(Swapped(s))[i] == s[i]
    {
      MirrorTwice(|s|, i);
    }
  }

  /** What the loop of endianness_swap leaves in dest. A length of the form 4k + 2 is the odd one:
      its last two bytes go to dest[len - 2] and dest[len], past the length asked for. */
  function SwapInto(dest: seq<byte>, src: seq<byte>, len: nat): (r: seq<byte>)
    requires len <= |src| && len <= |dest| && (len % 4 == 2 ==> len < |dest|)
    ensures |r| == |dest|
  {
    if len % 4 == 2 then
      (Swapped(src[..len - 2]) + dest[len - 2..])[len - 2 := src[len - 1]][len := src[len - 2]]
    else
      Swapped(src[..len]) + dest[len..]
  }

  /** A swap with a tail of two, whose last byte is not written. */
  function WithTail(s: seq<byte>, last: byte): seq<byte>
    requires |s| % 4 == 2
  {
    Swapped(s[..|s| - 2]) + [s[|s| - 1], last]
  }

  /** endianness_swap fills exactly the first len bytes, with the source bytes mirrored in their
      groups, whatever the buffers hold, just when len is not of the form 4k + 2. */
  lemma SwapIntoExact(len: nat)
    ensures len % 4 != 2 <==>
            forall dest: seq<byte>, src: seq<byte> {:trigger SwapInto(dest, src, len)} | len <= |src| && len < |dest| ::
              SwapInto(dest, src, len) == Swapped(src[..len]) + dest[len..]
  {
    if len % 4 == 2 {
      var dest, src := seq<byte>(len + 1, _ => 0), seq<byte>(len, _ => 1);
      assert SwapInto(dest, src, len)[len] == 1;
      assert (Swapped(src[..len]) + dest[len..])[len] == 0;
    }
  }

  /** The swap byte by byte: full groups of four reversed; of a rest of three the same; a rest of one in
      place; of a rest of two the second byte first and the first one past the end. Nothing else of dest
      changes. */
  lemma SwapByBytes(dest: seq<byte>, src: seq<byte>, len: nat)
    requires len <= |src| && len <= |dest| && (len % 4 == 2 ==> len < |dest|)
    ensures var r, g := SwapInto(dest, src, len), len - len % 4;
            && (forall i :: 0 <= i < g ==> r[i] == src[i / 4 * 4 + 3 - i % 4])
            && (len % 4 == 1 ==> r[g] == src[g] && r[g + 1..] == dest[g + 1..])
            && (len % 4 == 2 ==> r[g] == src[g + 1] && r[g + 1] == dest[g + 1] && r[g + 2] == src[g]
                                 && r[g + 3..] == dest[g + 3..])
            && (len % 4 == 3 ==> r[g] == src[g + 2] && r[g + 1] == src[g + 1] && r[g + 2] == src[g]
                                 && r[g + 3..] == dest[g + 3..])
            && (len % 4 == 0 ==> r[g..] == dest[g..])
  {
    hide Mirror, SwapInto;
    var n := if len % 4 == 2 then len - 2 else len;
    GroupsMirrored(n);
    MirrorRest(n);
    SwapRest(dest, src, len);
  }

  lemma SwapRest(dest: seq<byte>, src: seq<byte>, len: nat)
    requires len <= |src| && len <= |dest| && (len % 4 == 2 ==> len < |dest|)
    ensures var r, n := SwapInto(dest, src, len), if len % 4 == 2 then len - 2 else len;
            && (forall i :: 0 <= i < n ==> r[i] == src[Mirror(n, i)])
            && (len % 4 == 2 ==> r[n] == src[n + 1] && r[n + 1] == dest[n + 1] && r[n + 2] == src[n]
                                 && r[n + 3..] == dest[n + 3..])
            && (len % 4 != 2 ==> r[n..] == dest[n..])
  {
    hide Mirror;
  }

  lemma GroupsMirrored(n: nat)
    ensures forall i :: 0 <= i < n - n % 4 ==> Mirror(n, i) == i / 4 * 4 + 3 - i % 4
  {
  }

  lemma MirrorRest(n: nat)
    ensures var g := n - n % 4;
            && (n % 4 == 1 ==> Mirror(n, g) == g)
            && (n % 4 == 3 ==> Mirror(n, g) == g + 2 && Mirror(n, g + 1) == g + 1 && Mirror(n, g + 2) == g)
  {
  }

  /** What a 32-bit length is as a signed integer. */
  function AsInt32(len: uint32): int {
    if len < 0x8000_0000 then len else len - 0x1_0000_0000
  }

  /** The room that a swap of len bytes needs. */
  predicate SwapFits(dest: nat, src: nat, len: uint32) {
    0 < len < 0x8000_0000 ==> len <= src && len <= dest && (len % 4 == 2 ==> len < dest)
  }

  /** A length from 2^31 on counts as negative: nothing is swapped. */
  method EndiannessSwap(dest: array<byte>, src: array<byte>, len: uint32)
    requires dest != src && SwapFits(dest.Length, src.Length, len)
    modifies dest
    ensures dest[..] == if 0 < len < 0x8000_0000 then SwapInto(old(dest[..]), src[..], len) else old(dest[..])
  {
    hide Mirror;
    hide HalfSwapped;
    hide SwapInto;
    ghost var was, from := dest[..], src[..];
    var left, i := AsInt32(len), 0;
    if left > 0 {
      HalfSwappedEnds(was, from, len);
    }
    while left > 0
      invariant src[..] == from
      invariant AsInt32(len) <= 0 ==> left <= 0 && dest[..] == was
      invariant AsInt32(len) > 0 ==> 0 <= left && i + left == len && (left > 0 ==> i % 4 == 0)
      invariant AsInt32(len) > 0 ==>
                  dest[..] == if left == 0 then SwapInto(was, from, len) else HalfSwapped(was, from, len, i)
    {
      ghost var d := dest[..];
      if left >= 4 {
        Stored4(was, from, len, i);
        dest[i] := src[3 + i];
        dest[i + 1] := src[2 + i];
        dest[i + 2] := src[1 + i];
        dest[i + 3] := src[i];
        assert dest[..] == d[i := from[i + 3]][i + 1 := from[i + 2]][i + 2 := from[i + 1]][i + 3 := from[i]];
        left, i := left - 4, i + 4;
      } else if left >= 3 {
        Stored3(was, from, len, i);
        dest[i] := src[2 + i];
        dest[i + 1] := src[1 + i];
        dest[i + 2] := src[i];
        assert dest[..] == d[i := from[i + 2]][i + 1 := from[i + 1]][i + 2 := from[i]];
        left, i := left - 3, i + 3;
      } else if left >= 2 {
        Stored2(was, from, len, i);
        dest[i] := src[1 + i];
        dest[i + 2] := src[i];
        assert dest[..] == d[i := from[i + 1]][i + 2 := from[i]];
        left, i := left - 2, i + 2;
      } else {
        Stored1(was, from, len, i);
        dest[i] := src[i];
        assert dest[..] == d[i := from[i]];
        left, i := 0, i + 1;
      }
    }
  }

  /** The loop state of endianness_swap: i bytes are in place, the others are as they were. */
  ghost function HalfSwapped(dest: seq<byte>, src: seq<byte>, len: nat, i: nat): (r: seq<byte>)
    requires i <= len <= |src| && len <= |dest|
    ensures |r| == |dest|
  {
    seq(|dest|, j requires 0 <= j < |dest| => if j < i then src[Mirror(len, j)] else dest[j])
  }

  lemma HalfSwappedEnds(dest: seq<byte>, src: seq<byte>, len: nat)
    requires len <= |src| && len <= |dest| && (len % 4 == 2 ==> len < |dest|)
    ensures HalfSwapped(dest, src, len, 0) == dest
    ensures len % 4 != 2 ==> HalfSwapped(dest, src, len, len) == SwapInto(dest, src, len)
  {
    hide Mirror;
    assert HalfSwapped(dest, src, len, len) == Swapped(src[..len]) + dest[len..];
  }

  // One round of the loop, in each of its four branches.

  lemma Stored4(was: seq<byte>, src: seq<byte>, len: nat, i: nat)
    requires len <= |src| && len <= |was| && i % 4 == 0 && i + 4 <= len
    ensures HalfSwapped(was, src, len, i)[i := src[i + 3]][i + 1 := src[i + 2]][i + 2 := src[i + 1]][i + 3 := src[i]]
         == HalfSwapped(was, src, len, i + 4)
  {
    MirrorGroup(len, i);
  }

  lemma Stored3(was: seq<byte>, src: seq<byte>, len: nat, i: nat)
    requires len <= |src| && len <= |was| && i % 4 == 0 && i + 3 == len
    ensures HalfSwapped(was, src, len, i)[i := src[i + 2]][i + 1 := src[i + 1]][i + 2 := src[i]]
        == HalfSwapped(was, src, len, len)
  {
    hide Mirror;
    MirrorGroup(len, i);
  }

  lemma Stored2(was: seq<byte>, src: seq<byte>, len: nat, i: nat)
    requires len <= |src| && len < |was| && i % 4 == 0 && i + 2 == len
    ensures HalfSwapped(was, src, len, i)[i := src[i + 1]][i + 2 := src[i]] == SwapInto(was, src, len)
  {
    hide Mirror;
    MirrorPrefix(len);
    assert src[..i] == src[..len - 2];
    assert HalfSwapped(was, src, len, i) == Swapped(src[..len - 2]) + was[len - 2..];
    hide HalfSwapped;
  }

  lemma Stored1(was: seq<byte>, src: seq<byte>, len: nat, i: nat)
    requires len <= |src| && len <= |was| && i % 4 == 0 && i + 1 == len
    ensures HalfSwapped(was, src, len, i)[i := src[i]] == HalfSwapped(was, src, len, len)
  {
    hide Mirror;
    MirrorGroup(len, i);
  }

  lemma MirrorGroup(n: nat, g: nat)
    requires g % 4 == 0 && g < n
    ensures g + 4 <= n ==>
        Mirror(n, g) == g + 3 && Mirror(n, g + 1) == g + 2 && Mirror(n, g + 2) == g + 1 && Mirror(n, g + 3) == g
    ensures g + 3 == n ==> Mirror(n, g) == g + 2 && Mirror(n, g + 1) == g + 1 && Mirror(n, g + 2) == g
    ensures g + 1 == n ==> Mirror(n, g) == g
  {
  }

  /** Dropping an incomplete group does not change where the full groups go. */
  lemma MirrorPrefix(n: nat)
    requires n % 4 == 2
    ensures forall j :: 0 <= j < n - 2 ==> Mirror(n, j) == Mirror(n - 2, j)
  {
  }

  /** Swapping back gives the source again, whatever the buffers hold, just when the length is not of
      the form 4k + 2. */
  lemma SwapTwiceExact(len: nat)
    ensures len % 4 != 2 <==>
            forall back: seq<byte>, dest: seq<byte>,
                src: seq<byte> {:trigger SwapInto(back, SwapInto(dest, src, len), len)} |
              len <= |src| && len < |dest| && len < |back| ::
              SwapInto(back, SwapInto(dest, src, len), len)[..len] == src[..len]
  {
    if len % 4 == 2 {
      var zeros, src := seq<byte>(len + 1, _ => 0), seq<byte>(len, _ => 1);
      var once := SwapInto(zeros, src, len);
      assert once[len - 1] == 0;
      assert SwapInto(zeros, once, len)[len - 2] == 0;
      assert src[..len][len - 2] == 1;
    } else {
      forall back: seq<byte>, dest: seq<byte>, src: seq<byte> | len <= |src| && len < |dest| && len < |back|
        ensures SwapInto(back, SwapInto(dest, src, len), len)[..len] == src[..len]
      {
        SwappedTwice(src[..len]);
        assert SwapInto(dest, src, len)[..len] == Swapped(src[..len]);
      }
    }
  }

  /** Host bytes written through the byte swap are read back through it, whatever the temporary buffers
      hold, and no other byte of the RAM changes. */
  lemma SwappedRoundTrip(m: Mem, a: nat, s: seq<byte>, tmp: seq<byte>, buff: seq<byte>)
    requires |s| % 4 != 2 && |s| <= |tmp| && |s| <= |buff|
    ensures var n, m' := |s|, Write(m, a, SwapInto(tmp, s, |s|)[..|s|]);
            && SwapInto(buff, Read(m', a, n), n)[..n] == s
            && forall x: nat {:trigger At(m, x)} | !(a <= x < a + n) :: At(m', x) == At(m, x)
  {
    var n, w := |s|, SwapInto(tmp, s, |s|)[..|s|];
    assert s[..n] == s && w == Swapped(s);
    var m' := Write(m, a, w);
    assert Read(m', a, n) == w;
    assert w[..n] == w;
    SwappedTwice(s);
  }

  /** The host word held by four little-endian bytes. */
  function HostWord(s: seq<byte>): uint32
    requires |s| == 4
  {
    WordOf(s[3], s[2], s[1], s[0])
  }

  lemma HostWordRoundTrip(w: uint32)
    ensures HostWord(LittleEndian(w)) == w && Swapped(LittleEndian(w)) == BigEndian(w)
  {
    FourDigits(w);
    hide BigEndian;
  }

  /** A word read through the swap is, to the host, the big-endian word of the RAM. */
  lemma SwappedWord(m: Mem, a: nat, n: nat, g: nat)
    requires n % 4 == 0 && g % 4 == 0 && g + 4 <= n
    ensures HostWord(Swapped(Read(m, a, n))[g..g + 4]) == ReadWord(m, a + g)
  {
    hide ReadWord, Number, WordOf;
    MirrorGroup(n, g);
    ReadWordIs(m, a + g);
    var s := Swapped(Read(m, a, n));
    assert s[g..g + 4] == [s[g], s[g + 1], s[g + 2], s[g + 3]];
  }

  class Ram {
    var cells: Mem

    constructor ()
      ensures cells == map[]
    {
      cells := map[];
    }

    /** write_leon3_ram. The temporary buffer is taken to have room for the byte that a tail of two
        misplaces; what it holds at first is unknown. */
    method WriteBytes(addr: nat, buff: array<byte>, len: uint32, swap: bool)
      requires (swap && len >= 0x8000_0000) || len <= buff.Length
      modifies this
      ensures !swap ==> cells == Write(old(cells), addr, buff[..len])
      ensures swap && len < 0x8000_0000 && len % 4 != 2 ==> cells == Write(old(cells), addr, Swapped(buff[..len]))
      ensures swap && len < 0x8000_0000 && len % 4 == 2 ==>
                exists last: byte :: cells == Write(old(cells), addr, WithTail(buff[..len], last))
      ensures swap && len >= 0x8000_0000 ==>
          exists tmp: seq<byte> :: |tmp| == len && cells == Write(old(cells), addr, tmp)
    {
      hide Write, SwapInto, WithTail;
      var tmp := new byte[len + 1];
      ghost var was := tmp[..];
      if swap {
        EndiannessSwap(tmp, buff, len);
        if len < 0x8000_0000 {
          SwapIntoStart(was, buff[..], len);
          assert buff[..][..len] == buff[..len];
          assert len == 0 ==> was[..len] == Swapped(buff[..len]);
        }
      } else {
        forall i | 0 <= i < len {
          tmp[i] := buff[i];
        }
        assert tmp[..len] == buff[..len];
      }
      ghost var stored := tmp[..len];
      assert tmp[..][..len] == stored;
      cells := Write(cells, addr, tmp[..len]);
      if swap && len < 0x8000_0000 && len % 4 == 2 {
        ghost var last := was[len - 1];
        assert cells == Write(old(cells), addr, WithTail(buff[..len], last));
      }
    }

    /** read_leon3_ram */
    method ReadBytes(addr: nat, buff: array<byte>, len: uint32, swap: bool)
      requires if swap then SwapFits(buff.Length, len, len) else len <= buff.Length
      modifies buff
      ensures swap ==>
                buff[..] == if 0 < len < 0x8000_0000 then SwapInto(old(buff[..]), Read(cells, addr, len), len)
                    else old(buff[..])
      ensures swap && 0 < len < 0x8000_0000 && len % 4 != 2 ==> buff[..len] == Swapped(Read(cells, addr, len))
      ensures !swap ==> buff[..len] == Read(cells, addr, len) && buff[len..] == old(buff[len..])
    {
      var tmp := new byte[len](i requires 0 <= i < len reads this => At(cells, addr + i));
      assert tmp[..] == Read(cells, addr, len);
      if swap {
        EndiannessSwap(buff, tmp, len);
        assert tmp[..][..len] == tmp[..];
      } else {
        forall i | 0 <= i < len {
          buff[i] := tmp[i];
        }
      }
    }
  }

  /** The first len bytes of the swap. The last of a tail of two is never written. */
  lemma SwapIntoStart(dest: seq<byte>, src: seq<byte>, len: nat)
    requires len <= |src| && len < |dest|
    ensures SwapInto(dest, src, len)[..len]
         == if len % 4 == 2 then WithTail(src[..len], dest[len - 1]) else Swapped(src[..len])
  {
    hide Mirror;
    assert len % 4 == 2 ==> src[..len][..len - 2] == src[..len - 2];
  }
}
