/**
 * The ERC-5202 blueprint decoder of `src/utils.rs` (`parse_blueprint`).
 *
 * A blueprint is `0xFE 0x71 <version:6 bits><length encoding:2 bits>
 * [<length bytes>] [<preamble data>] <initcode>`. The decoder below follows the
 * code as written: the length bytes are hex-encoded and re-read with radix
 * `8 * (number of length bytes)`, and every out-of-range slice, which panics in
 * the source, is the explicit outcome `SlicePanic`.
 *
 * `ParseBlueprintIntended` is the same decoder with the two defects repaired
 * (radix 16 for every length field, short inputs rejected with an error).
 */
module Utils {
  import opened Wrappers

  type Byte = bv8

  /** The two magic bytes that open every blueprint. */
  const Magic: seq<Byte> := [0xFE, 0x71]

  /** `u32::MAX`: `from_str_radix` parses into a `u32`. */
  const U32Max: nat := 0xFFFF_FFFF

  /** The decoded container: `(erc_version, preamble_data, initcode)`. */
  datatype Blueprint = Blueprint(ercVersion: Byte, preambleData: Option<seq<Byte>>, initcode: seq<Byte>)

  /** The kinds of `core::num::ParseIntError` that `u32::from_str_radix` can report. */
  datatype IntErrorKind = Empty | InvalidDigit | PosOverflow

  datatype BlueprintError =
    | EmptyBytecode
    | NotABlueprint
    | ReservedBitsSet
    | IntParse(kind: IntErrorKind)
    | EmptyInitcode
      /** An out-of-range slice or index: a panic in the source, not an error value. */
    | SlicePanic
      /** Only the repaired decoder: the input ends inside the preamble. */
    | Truncated
  {
    /** The text the source's error carries (`bail!` message or the integer error's `Display`). */
    function Message(): (m: string)
      ensures |m| > 0
    {
      match this
      case EmptyBytecode => "Empty Bytecode"
      case NotABlueprint => "Not a blueprint!"
      case ReservedBitsSet => "Reserved bits are set"
      case IntParse(Empty) => "cannot parse integer from empty string"
      case IntParse(InvalidDigit) => "invalid digit found in string"
      case IntParse(PosOverflow) => "number too large to fit in target type"
      case EmptyInitcode => "Empty Initcode!"
      case SlicePanic => "panic: slice index out of range"
      case Truncated => "Truncated blueprint"
    }
  }

  // ---------------------------------------------------------------------------
  // hex::encode and u32::from_str_radix

  /** The lower-case hex digit of a nibble, as `hex::encode` writes it. */
  function HexDigit(k: nat): (c: char)
    requires k < 16
    ensures '0' <= c <= '9' || 'a' <= c <= 'f'
  {
    if k < 10 then ('0' as int + k) as char else ('a' as int + (k - 10)) as char
  }

  /** The top four bits of a byte. */
  function HighNibble(b: Byte): (n: nat)
    ensures n < 16
  {
    (b >> 4) as int
  }

  /** The bottom four bits of a byte. */
  function LowNibble(b: Byte): (n: nat)
    ensures n < 16
  {
    (b & 0xF) as int
  }

  /** `hex::encode`: two lower-case digits per byte, high nibble first. */
  function HexEncode(bytes: seq<Byte>): (s: string)
    ensures |s| == |bytes| + |bytes|
  {
    if bytes == [] then [] else [HexDigit(HighNibble(bytes[0])), HexDigit(LowNibble(bytes[0]))] + HexEncode(bytes[1..])
  }

  /** `char::to_digit(radix)`: digits, then letters of either case, must be below the radix. */
  function ToDigit(c: char, radix: nat): (d: Option<nat>)
    requires 2 <= radix <= 36
    ensures d.Some? ==> d.value < radix
  {
    var v: int :=
      if '0' <= c <= '9' then c as int - '0' as int
      else if 'a' <= c <= 'z' then c as int - 'a' as int + 10
      else if 'A' <= c <= 'Z' then c as int - 'A' as int + 10
      else 36;
    if v < radix then Some(v) else None
  }

  /**
   * The digit loop of `from_str_radix`, left to right: an invalid digit stops it,
   * and so does a multiply-add that leaves the `u32` range.
   */
  function AccumulateDigits(digits: string, radix: nat, acc: nat): (r: Result<nat, IntErrorKind>)
    requires 2 <= radix <= 36
    ensures r.Success? ==> r.value <= U32Max || (digits == [] && r.value == acc)
    ensures r.Failure? ==> r.error != Empty
    decreases |digits|
  {
    if digits == [] then Success(acc)
    else
      match ToDigit(digits[0], radix)
      case None => Failure(InvalidDigit)
      case Some(d) =>
        if acc * radix + d > U32Max then Failure(PosOverflow)
        else AccumulateDigits(digits[1..], radix, acc * radix + d)
  }

  /** `u32::from_str_radix`: an empty text and a lone sign are errors; one leading `+` is allowed. */
  function FromStrRadix(src: string, radix: nat): (r: Result<nat, IntErrorKind>)
    requires 2 <= radix <= 36
    ensures r.Success? ==> r.value <= U32Max
    ensures r == Failure(Empty) <==> src == []
  {
    if src == [] then Failure(Empty)
    else if (src[0] == '+' || src[0] == '-') && |src| == 1 then Failure(InvalidDigit)
    else AccumulateDigits(if src[0] == '+' then src[1..] else src, radix, 0)
  }

  /** The length field: no bytes give 0; otherwise their hex text read in the given radix. */
  function DataLength(sizeTemp: seq<Byte>, radix: nat): (r: Result<nat, IntErrorKind>)
    requires |sizeTemp| > 0 ==> 2 <= radix <= 36
    ensures |sizeTemp| == 0 ==> r == Success(0)
    ensures r != Failure(Empty)
    ensures r.Success? ==> r.value <= U32Max
  {
    if |sizeTemp| == 0 then Success(0) else FromStrRadix(HexEncode(sizeTemp), radix)
  }

  lemma HexDigitValue(k: nat, radix: nat)
    requires k < 16 && 2 <= radix <= 36
    ensures ToDigit(HexDigit(k), radix) == if k < radix then Some(k) else None
  {
  }

  lemma ByteFromNibbles(b: Byte)
    ensures HighNibble(b) * 16 + LowNibble(b) == b as int
  {
  }

  /** One step of the digit loop on a valid digit that keeps the value in range. */
  lemma AccumulateStep(c: char, rest: string, radix: nat, acc: nat, d: nat)
    requires 2 <= radix <= 36 && ToDigit(c, radix) == Some(d) && acc * radix + d <= U32Max
    ensures AccumulateDigits([c] + rest, radix, acc) == AccumulateDigits(rest, radix, acc * radix + d)
  {
    assert ([c] + rest)[1..] == rest;
  }

  /** Two digits `hi lo`, both below the radix, read as `hi * radix + lo`; otherwise an invalid digit. */
  lemma {:induction false} AccumulateTwoDigits(hi: nat, lo: nat, radix: nat)
    requires hi < 16 && lo < 16 && (radix == 8 || radix == 16)
    ensures AccumulateDigits([HexDigit(hi), HexDigit(lo)], radix, 0)
      == if hi < radix && lo < radix then Success(hi * radix + lo) else Failure(InvalidDigit)
  {
    HexDigitValue(hi, radix);
    HexDigitValue(lo, radix);
    if hi < radix {
      AccumulateStep(HexDigit(hi), [HexDigit(lo)], radix, 0, hi);
      assert hi * radix <= 15 * 16 by {
        if radix == 8 { assert hi * radix == hi * 8; } else { assert hi * radix == hi * 16; }
      }
      if lo < radix {
        AccumulateStep(HexDigit(lo), [], radix, hi, lo);
        assert [HexDigit(lo)] + [] == [HexDigit(lo)];
      }
    }
  }

  /** Four base-16 digits give their positional value. */
  lemma {:induction false} AccumulateFourDigits(c3: char, c2: char, c1: char, c0: char, d3: nat, d2: nat, d1: nat, d0: nat)
    requires ToDigit(c3, 16) == Some(d3) && ToDigit(c2, 16) == Some(d2)
    requires ToDigit(c1, 16) == Some(d1) && ToDigit(c0, 16) == Some(d0)
    ensures AccumulateDigits([c3, c2, c1, c0], 16, 0) == Success(((d3 * 16 + d2) * 16 + d1) * 16 + d0)
  {
    var v1, v2, v3 := d3, d3 * 16 + d2, (d3 * 16 + d2) * 16 + d1;
    var s := [c3, c2, c1, c0];
    assert s[1..] == [c2, c1, c0] && s[1..][1..] == [c1, c0] && s[1..][1..][1..] == [c0] && s[1..][1..][1..][1..] == [];
    AccumulateHead(s, 16, 0, d3);
    AccumulateHead(s[1..], 16, v1, d2);
    AccumulateHead(s[1..][1..], 16, v2, d1);
    AccumulateHead(s[1..][1..][1..], 16, v3, d0);
  }

  /** One step of the digit loop, on the head of the text. */
  lemma AccumulateHead(s: string, radix: nat, acc: nat, d: nat)
    requires 2 <= radix <= 36 && |s| > 0 && ToDigit(s[0], radix) == Some(d) && acc * radix + d <= U32Max
    ensures AccumulateDigits(s, radix, acc) == AccumulateDigits(s[1..], radix, acc * radix + d)
  {
  }

  lemma HexEncodeOneByte(b: Byte)
    ensures HexEncode([b]) == [HexDigit(HighNibble(b)), HexDigit(LowNibble(b))]
  {
    assert [b][1..] == [];
  }

  /** The hex text of one byte, read in `radix`: both nibbles must be digits of that radix. */
  lemma {:induction false} FromStrRadixOneByte(b: Byte, radix: nat)
    requires radix == 8 || radix == 16
    ensures var hi, lo := HighNibble(b), LowNibble(b);
      FromStrRadix(HexEncode([b]), radix)
        == if hi < radix && lo < radix then Success(hi * radix + lo) else Failure(InvalidDigit)
  {
    var hi, lo := HighNibble(b), LowNibble(b);
    HexEncodeOneByte(b);
    TwoDigitText(hi, lo, radix);
  }

  /** Two hex digits read in `radix`. */
  lemma {:induction false} TwoDigitText(hi: nat, lo: nat, radix: nat)
    requires hi < 16 && lo < 16 && (radix == 8 || radix == 16)
    ensures FromStrRadix([HexDigit(hi), HexDigit(lo)], radix)
      == if hi < radix && lo < radix then Success(hi * radix + lo) else Failure(InvalidDigit)
  {
    var s := [HexDigit(hi), HexDigit(lo)];
    assert FromStrRadix(s, radix) == AccumulateDigits(s, radix, 0) by {
      assert s[0] != '+' && s[0] != '-';
    }
    AccumulateTwoDigits(hi, lo, radix);
  }

  /** With one length byte the source reads its two hex digits in base 8. */
  lemma {:induction false} OneLengthByte(b: Byte)
    ensures var hi, lo := HighNibble(b), LowNibble(b);
      DataLength([b], 8) == if hi < 8 && lo < 8 then Success(hi * 8 + lo) else Failure(InvalidDigit)
    ensures DataLength([b], 8).Failure? <==> HighNibble(b) >= 8 || LowNibble(b) >= 8
    ensures DataLength([b], 8) == Success(b as int) <==> b < 8
  {
    FromStrRadixOneByte(b, 8);
    ByteFromNibbles(b);
  }

  /** One length byte read in base 16 is the byte itself. */
  lemma {:induction false} OneLengthByteHex(b: Byte)
    ensures DataLength([b], 16) == Success(b as int)
  {
    FromStrRadixOneByte(b, 16);
    ByteFromNibbles(b);
  }

  lemma HexEncodeTwoBytes(b3: Byte, b4: Byte)
    ensures HexEncode([b3, b4])
      == [HexDigit(HighNibble(b3)), HexDigit(LowNibble(b3)), HexDigit(HighNibble(b4)), HexDigit(LowNibble(b4))]
  {
    assert [b3, b4][1..] == [b4];
    HexEncodeOneByte(b4);
  }

  /** Four hex digits read in base 16 give their positional value. */
  lemma {:induction false} FourDigitText(d3: nat, d2: nat, d1: nat, d0: nat)
    requires d3 < 16 && d2 < 16 && d1 < 16 && d0 < 16
    ensures FromStrRadix([HexDigit(d3), HexDigit(d2), HexDigit(d1), HexDigit(d0)], 16)
      == Success((d3 * 16 + d2) * 256 + (d1 * 16 + d0))
  {
    var s := [HexDigit(d3), HexDigit(d2), HexDigit(d1), HexDigit(d0)];
    HexDigitValue(d3, 16);
    HexDigitValue(d2, 16);
    HexDigitValue(d1, 16);
    HexDigitValue(d0, 16);
    AccumulateFourDigits(s[0], s[1], s[2], s[3], d3, d2, d1, d0);
    assert FromStrRadix(s, 16) == AccumulateDigits(s, 16, 0) by {
      assert s[0] != '+' && s[0] != '-';
    }
    assert ((d3 * 16 + d2) * 16 + d1) * 16 + d0 == (d3 * 16 + d2) * 256 + (d1 * 16 + d0);
  }

  /** With two length bytes the radix is 16, which is big-endian decoding. */
  lemma {:induction false} TwoLengthBytes(b3: Byte, b4: Byte)
    ensures DataLength([b3, b4], 16) == Success(b3 as int * 256 + b4 as int)
  {
    HexEncodeTwoBytes(b3, b4);
    FourDigitText(HighNibble(b3), LowNibble(b3), HighNibble(b4), LowNibble(b4));
    ByteFromNibbles(b3);
    ByteFromNibbles(b4);
  }

  // ---------------------------------------------------------------------------
  // The decoder as written

  /** The version the third byte carries (its top six bits). */
  function VersionOf(b2: Byte): (v: Byte)
    ensures v < 64
  {
    (b2 & 0xFC) >> 2
  }

  lemma TopSixBits(b2: Byte)
    ensures VersionOf(b2) as int == b2 as int / 4
  {
  }

  /** How many length bytes the third byte announces (its low two bits). */
  function LengthBytes(b2: Byte): (n: nat)
    ensures n == b2 as int % 4
  {
    (b2 & 0x3) as int
  }

  /** The bytes a decoded preamble stands for. */
  function PreambleBytes(p: Option<seq<Byte>>): seq<Byte> {
    if p.Some? then p.value else []
  }

  /**
   * `parse_blueprint` (src/utils.rs). A success splits the input into the header
   * (magic, version byte, length bytes), the preamble data and the initcode.
   */
  function ParseBlueprint(bytecode: seq<Byte>): (r: Result<Blueprint, BlueprintError>)
    ensures r.Success? ==>
      && |bytecode| >= 3
      && |bytecode| >= 3 + LengthBytes(bytecode[2])
      && bytecode[..2] == Magic
      && r.value.ercVersion == VersionOf(bytecode[2])
      && (r.value.preambleData.Some? ==> |r.value.preambleData.value| > 0)
      && |r.value.initcode| > 0
      && bytecode == bytecode[..3 + LengthBytes(bytecode[2])] + PreambleBytes(r.value.preambleData) + r.value.initcode
  {
    if |bytecode| == 0 then Failure(EmptyBytecode)
    else if |bytecode| < 2 then Failure(SlicePanic)       // &bytecode[0..2]
    else if bytecode[0..2] != Magic then Failure(NotABlueprint)
    else if |bytecode| < 3 then Failure(SlicePanic)       // bytecode[2]
    else
      var ercVersion := VersionOf(bytecode[2]);
      var nLengthBytes := LengthBytes(bytecode[2]);
      if nLengthBytes == 0x3 then Failure(ReservedBitsSet)
      else if 3 + nLengthBytes > |bytecode| then Failure(SlicePanic)   // bytecode[3..3 + n]
      else
        var sizeTemp := bytecode[3..3 + nLengthBytes];
        match DataLength(sizeTemp, |sizeTemp| * 8)
        case Failure(e) => Failure(IntParse(e))
        case Success(dataLength) =>
          var dataStart := 3 + nLengthBytes;
          if dataLength != 0 && dataStart + dataLength > |bytecode| then Failure(SlicePanic)
          else
            var preambleData := if dataLength == 0 then None else Some(bytecode[dataStart..dataStart + dataLength]);
            var initcode := bytecode[dataStart + dataLength..];
            assert bytecode == bytecode[..dataStart] + PreambleBytes(preambleData) + initcode;
            if |initcode| == 0 then Failure(EmptyInitcode)
            else Success(Blueprint(ercVersion, preambleData, initcode))
  }

  lemma EmptyBytecodeRejected()
    ensures ParseBlueprint([]) == Failure(EmptyBytecode)
  {
  }

  /** Any input of two or more bytes that does not open with the magic is not a blueprint. */
  lemma NotMagicRejected(bytecode: seq<Byte>)
    requires |bytecode| >= 2 && bytecode[..2] != Magic
    ensures ParseBlueprint(bytecode) == Failure(NotABlueprint)
  {
  }

  /** A version byte whose low bits are `0x3` is rejected whatever follows it. */
  lemma ReservedBitsRejected(b2: Byte, rest: seq<Byte>)
    requires b2 & 0x3 == 0x3
    ensures ParseBlueprint(Magic + [b2] + rest) == Failure(ReservedBitsSet)
  {
    var s := Magic + [b2] + rest;
    assert s[0..2] == Magic && s[2] == b2;
  }

  /** The decoded version is the top six bits of the third byte. */
  lemma VersionIsTopSixBits(bytecode: seq<Byte>)
    requires ParseBlueprint(bytecode).Success?
    ensures ParseBlueprint(bytecode).value.ercVersion as int == bytecode[2] as int / 4
    ensures ParseBlueprint(bytecode).value.ercVersion < 64
  {
    TopSixBits(bytecode[2]);
  }

  /**
   * The preamble is absent exactly when the declared length is 0; otherwise it is
   * that many bytes right after the length bytes, and the initcode is the rest.
   */
  lemma {:induction false} PreambleAndInitcodeLayout(bytecode: seq<Byte>)
    requires ParseBlueprint(bytecode).Success?
    ensures var n := LengthBytes(bytecode[2]);
      var len := |PreambleBytes(ParseBlueprint(bytecode).value.preambleData)|;
      var bp := ParseBlueprint(bytecode).value;
      && DataLength(bytecode[3..3 + n], n * 8) == Success(len)
      && (bp.preambleData.None? <==> len == 0)
      && (bp.preambleData.Some? ==> bp.preambleData.value == bytecode[3 + n..3 + n + len])
      && bp.initcode == bytecode[3 + n + len..]
  {
  }

  /** An input whose declared data reach exactly its end has no initcode. */
  lemma EmptyInitcodeRejected(b2: Byte, lengthBytes: seq<Byte>, data: seq<Byte>)
    requires b2 & 0x3 != 0x3 && |lengthBytes| == LengthBytes(b2)
    requires DataLength(lengthBytes, |lengthBytes| * 8) == Success(|data|)
    ensures ParseBlueprint(Magic + [b2] + lengthBytes + data) == Failure(EmptyInitcode)
  {
    var s := Magic + [b2] + lengthBytes + data;
    assert s[0..2] == Magic && s[2] == b2;
    assert s[3..3 + |lengthBytes|] == lengthBytes;
    assert s[3 + |lengthBytes| + |data|..] == [];
  }

  /** First vector of the crate's `parse_bp` test: no length bytes, initcode `00`. */
  lemma ParseBpCase1()
    ensures ParseBlueprint([0xFE, 0x71, 0x00, 0x00]) == Success(Blueprint(0, None, [0x00]))
  {
    var c: seq<Byte> := [0xFE, 0x71, 0x00, 0x00];
    assert c[0..2] == Magic && c[3..3] == [] && c[3..] == [0x00];
  }

  /** Second vector: one length byte `07`, seven `FF` data bytes, initcode `00`. */
  lemma {:induction false} ParseBpCase2()
    ensures ParseBlueprint([0xFE, 0x71, 0x01, 0x07] + seq(7, _ => 0xFF) + [0x00])
      == Success(Blueprint(0, Some(seq(7, _ => 0xFF)), [0x00]))
  {
    var data: seq<Byte> := seq(7, _ => 0xFF);
    var c: seq<Byte> := [0xFE, 0x71, 0x01, 0x07] + data + [0x00];
    assert c[0..2] == Magic && c[3..4] == [0x07];
    OneLengthByte(0x07);
    assert c[4..11] == data && c[11..] == [0x00];
  }

  /** Third vector: two length bytes `01 00`, 256 `FF` data bytes, initcode `00`. */
  lemma {:induction false} ParseBpCase3()
    ensures ParseBlueprint([0xFE, 0x71, 0x02, 0x01, 0x00] + seq(256, _ => 0xFF) + [0x00])
      == Success(Blueprint(0, Some(seq(256, _ => 0xFF)), [0x00]))
  {
    var data: seq<Byte> := seq(256, _ => 0xFF);
    var c: seq<Byte> := [0xFE, 0x71, 0x02, 0x01, 0x00] + data + [0x00];
    assert c[0..2] == Magic && c[3..5] == [0x01, 0x00];
    TwoLengthBytes(0x01, 0x00);
    assert c[5..261] == data && c[261..] == [0x00];
  }

  /** Inputs of one or two bytes panic instead of returning an error. */
  lemma ShortInputsPanic(b: Byte)
    ensures ParseBlueprint([b]) == Failure(SlicePanic)
    ensures ParseBlueprint(Magic) == Failure(SlicePanic)
  {
    assert Magic[0..2] == Magic;
  }

  /** A length field that promises more data than the input holds panics on the slice. */
  lemma ShortPreamblePanicsAll(b2: Byte, field: seq<Byte>, data: seq<Byte>, len: nat)
    requires b2 & 0x3 != 0x3 && |field| == LengthBytes(b2)
    requires DataLength(field, |field| * 8) == Success(len)
    requires len > 0 && |data| < len
    ensures ParseBlueprint(Magic + [b2] + field + data) == Failure(SlicePanic)
  {
    var s := Magic + [b2] + field + data;
    assert s[0..2] == Magic && s[2] == b2;
    assert s[3..3 + |field|] == field;
  }

  /** A length field cut short by the end of the input panics on its slice. */
  lemma ShortLengthFieldPanics(b2: Byte, rest: seq<Byte>)
    requires b2 & 0x3 != 0x3 && |rest| < LengthBytes(b2)
    ensures ParseBlueprint(Magic + [b2] + rest) == Failure(SlicePanic)
  {
    var s := Magic + [b2] + rest;
    assert s[0..2] == Magic && s[2] == b2;
  }

  // ---------------------------------------------------------------------------
  // The encoder that the format defines, and round trips

  /** The big-endian value of a length field. */
  function BigEndian(f: seq<Byte>): nat {
    if f == [] then 0 else BigEndian(f[..|f| - 1]) * 256 + f[|f| - 1] as int
  }

  /**
   * A well-formed blueprint: a version below 64, a length field of at most two
   * bytes whose big-endian value is the data length, and non-empty initcode.
   */
  predicate ValidParts(version: Byte, field: seq<Byte>, data: seq<Byte>, initcode: seq<Byte>) {
    version < 64 && |field| <= 2 && BigEndian(field) == |data| && |initcode| > 0
  }

  /** The third byte: the version above the count of length bytes. */
  function HeaderByte(version: Byte, field: seq<Byte>): Byte
    requires |field| <= 2
  {
    (version << 2) | (if |field| == 0 then 0 else if |field| == 1 then 1 else 2)
  }

  /** The blueprint the format lays out for the given parts. */
  function Encode(version: Byte, field: seq<Byte>, data: seq<Byte>, initcode: seq<Byte>): seq<Byte>
    requires |field| <= 2
  {
    Magic + [HeaderByte(version, field)] + field + data + initcode
  }

  lemma VersionByte(version: Byte, n: Byte)
    requires version < 64 && n <= 2
    ensures ((version << 2) | n) & 0x3 == n
    ensures (((version << 2) | n) & 0xFC) >> 2 == version
  {
  }

  lemma HeaderByteFields(version: Byte, field: seq<Byte>)
    requires version < 64 && |field| <= 2
    ensures LengthBytes(HeaderByte(version, field)) == |field|
    ensures VersionOf(HeaderByte(version, field)) == version
  {
    var n: Byte := if |field| == 0 then 0 else if |field| == 1 then 1 else 2;
    VersionByte(version, n);
    assert n as int == |field|;
  }

  /** A length field read in base 16 gives its big-endian value. */
  lemma {:induction false} LengthFieldHex(f: seq<Byte>)
    requires 1 <= |f| <= 2
    ensures DataLength(f, 16) == Success(BigEndian(f))
  {
    if |f| == 1 {
      OneLengthByteHex(f[0]);
      assert f == [f[0]] && f[..0] == [];
    } else {
      TwoLengthBytes(f[0], f[1]);
      assert f == [f[0], f[1]] && f[..1] == [f[0]] && f[..1][..0] == [];
      assert BigEndian(f[..1]) == f[0] as int;
      assert BigEndian(f) == BigEndian(f[..1]) * 256 + f[1] as int;
    }
  }

  /** Where the parts of an encoded blueprint sit. */
  lemma {:induction false} EncodeLayout(version: Byte, field: seq<Byte>, data: seq<Byte>, initcode: seq<Byte>)
    requires ValidParts(version, field, data, initcode)
    ensures var s, n := Encode(version, field, data, initcode), |field|;
      && |s| == 3 + n + |data| + |initcode|
      && s[0..2] == Magic
      && LengthBytes(s[2]) == n
      && VersionOf(s[2]) == version
      && s[3..3 + n] == field
      && s[3 + n..3 + n + |data|] == data
      && s[3 + n + |data|..] == initcode
  {
    var s, n := Encode(version, field, data, initcode), |field|;
    HeaderByteFields(version, field);
    assert s[2] == HeaderByte(version, field);
    assert s[3..3 + n] == field;
    assert s[3 + n..3 + n + |data|] == data;
    assert s[3 + n + |data|..] == initcode;
  }

  /** The decoded form of valid parts: no preamble when there are no data. */
  function Decoded(version: Byte, data: seq<Byte>, initcode: seq<Byte>): Blueprint {
    Blueprint(version, if |data| == 0 then None else Some(data), initcode)
  }

  /**
   * The source decodes every encoding whose one-byte length field is below 8
   * (so reads the same in base 8 and 16), and every two-byte or empty field.
   */
  lemma {:induction false} RoundTripAsWritten(version: Byte, field: seq<Byte>, data: seq<Byte>, initcode: seq<Byte>)
    requires ValidParts(version, field, data, initcode)
    requires |field| == 1 ==> field[0] < 8
    ensures ParseBlueprint(Encode(version, field, data, initcode)) == Success(Decoded(version, data, initcode))
  {
    EncodeLayout(version, field, data, initcode);
    if |field| == 1 {
      OneLengthByte(field[0]);
      assert field == [field[0]] && field[..0] == [];
      assert BigEndian(field) == field[0] as int;
      assert DataLength(field, |field| * 8) == Success(|data|);
    } else if |field| == 2 {
      LengthFieldHex(field);
    }
  }

  /** A one-byte length of 8 is rejected: '8' is not an octal digit. */
  lemma {:induction false} OneByteLengthEightRejected(data: seq<Byte>, initcode: seq<Byte>)
    requires |data| == 8 && |initcode| > 0
    ensures ValidParts(0, [0x08], data, initcode)
    ensures ParseBlueprint(Encode(0, [0x08], data, initcode)) == Failure(IntParse(InvalidDigit))
  {
    assert [0x08 as Byte][..0] == [];
    EncodeLayout(0, [0x08], data, initcode);
    OneLengthByte(0x08);
  }

  /** A one-byte length of 16 (hex "10") is read as 8: the rest of the data lands in the initcode. */
  lemma {:induction false} OneByteLengthSixteenMisread(data: seq<Byte>, initcode: seq<Byte>)
    requires |data| == 16 && |initcode| > 0
    ensures ValidParts(0, [0x10], data, initcode)
    ensures ParseBlueprint(Encode(0, [0x10], data, initcode))
      == Success(Blueprint(0, Some(data[..8]), data[8..] + initcode))
  {
    assert [0x10 as Byte][..0] == [];
    var s := Encode(0, [0x10], data, initcode);
    EncodeLayout(0, [0x10], data, initcode);
    OneLengthByte(0x10);
    assert s[4..12] == data[..8];
    assert s[12..] == data[8..] + initcode;
  }

  // ---------------------------------------------------------------------------
  // The repaired decoder

  /**
   * `parse_blueprint` with the evidently intended behaviour: the length bytes are
   * big-endian (radix 16 for their hex text whatever their number), and an input
   * too short for its own header or data is an error instead of a panic.
   */
  function ParseBlueprintIntended(bytecode: seq<Byte>): (r: Result<Blueprint, BlueprintError>)
    ensures r != Failure(SlicePanic)
    ensures r.Success? ==>
      && |bytecode| >= 3
      && |bytecode| >= 3 + LengthBytes(bytecode[2])
      && bytecode[..2] == Magic
      && r.value.ercVersion == VersionOf(bytecode[2])
      && (r.value.preambleData.Some? ==> |r.value.preambleData.value| > 0)
      && |r.value.initcode| > 0
      && bytecode == bytecode[..3 + LengthBytes(bytecode[2])] + PreambleBytes(r.value.preambleData) + r.value.initcode
  {
    if |bytecode| == 0 then Failure(EmptyBytecode)
    else if |bytecode| < 2 || bytecode[0..2] != Magic then Failure(NotABlueprint)
    else if |bytecode| < 3 then Failure(Truncated)
    else
      var ercVersion := VersionOf(bytecode[2]);
      var nLengthBytes := LengthBytes(bytecode[2]);
      if nLengthBytes == 0x3 then Failure(ReservedBitsSet)
      else if 3 + nLengthBytes > |bytecode| then Failure(Truncated)
      else
        match DataLength(bytecode[3..3 + nLengthBytes], 16)
        case Failure(e) => Failure(IntParse(e))
        case Success(dataLength) =>
          var dataStart := 3 + nLengthBytes;
          if dataStart + dataLength > |bytecode| then Failure(Truncated)
          else
            var preambleData := if dataLength == 0 then None else Some(bytecode[dataStart..dataStart + dataLength]);
            var initcode := bytecode[dataStart + dataLength..];
            assert bytecode == bytecode[..dataStart] + PreambleBytes(preambleData) + initcode;
            if |initcode| == 0 then Failure(EmptyInitcode)
            else Success(Blueprint(ercVersion, preambleData, initcode))
  }

  /** Every well-formed blueprint decodes back to its parts. */
  lemma {:induction false} RoundTripIntended(version: Byte, field: seq<Byte>, data: seq<Byte>, initcode: seq<Byte>)
    requires ValidParts(version, field, data, initcode)
    ensures ParseBlueprintIntended(Encode(version, field, data, initcode)) == Success(Decoded(version, data, initcode))
  {
    EncodeLayout(version, field, data, initcode);
    if |field| != 0 {
      LengthFieldHex(field);
    }
  }

  /** The repaired decoder rejects short inputs with errors. */
  lemma ShortInputsRejectedIntended(b: Byte, b2: Byte, rest: seq<Byte>, field: seq<Byte>, data: seq<Byte>, len: nat)
    ensures ParseBlueprintIntended([b]) == Failure(NotABlueprint)
    ensures ParseBlueprintIntended(Magic) == Failure(Truncated)
    ensures b2 & 0x3 != 0x3 && |rest| < LengthBytes(b2) ==>
      ParseBlueprintIntended(Magic + [b2] + rest) == Failure(Truncated)
    ensures b2 & 0x3 != 0x3 && |field| == LengthBytes(b2) && DataLength(field, 16) == Success(len) && |data| < len ==>
      ParseBlueprintIntended(Magic + [b2] + field + data) == Failure(Truncated)
  {
    assert Magic[0..2] == Magic;
    var s := Magic + [b2] + rest;
    assert s[0..2] == Magic && s[2] == b2;
    var t := Magic + [b2] + field + data;
    assert t[0..2] == Magic && t[2] == b2;
    assert t[3..3 + |field|] == field;
  }
}
