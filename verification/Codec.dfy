/** The ERC-20 transfer call and the `Transfer` log, as bytes and as hex text. */
module Codec {
  import opened Prelude
  import opened Ledger

  type Byte = x: int | 0 <= x < 256

  /** Selector of `transfer(address,uint256)` in EIP-20. */
  const TRANSFER_SELECTOR: seq<Byte> := [0xa9, 0x05, 0x9c, 0xbb]

  /** Topic of the EIP-20 `Transfer` event. */
  const TRANSFER_TOPIC: string := "0xddf252ad1be2c89b69c2b068fc378daa952ba7f163c4a11628f55a4df523b3ef"

  datatype Erc20Transfer = Erc20Transfer(from: string, to: string, value: int)

  // ----------------------------------------------------------------------- hex text ---

  function HexVal(c: char): (r: Option<nat>)
    ensures r.Some? ==> r.value < 16
  {
    if '0' <= c <= '9' then Some((c - '0') as nat)
    else if 'a' <= c <= 'f' then Some((c - 'a') as nat + 10)
    else if 'A' <= c <= 'F' then Some((c - 'A') as nat + 10)
    else None
  }

  function HexDigit(v: nat): char
    requires v < 16
  {
    if v < 10 then ('0' as int + v) as char else ('a' as int + v - 10) as char
  }

  function LowerChar(c: char): char { if 'A' <= c <= 'Z' then ((c - 'A') as int + 'a' as int) as char else c }

  function Lower(s: string): string { seq(|s|, i requires 0 <= i < |s| => LowerChar(s[i])) }

  predicate IsHex(s: string) { forall i :: 0 <= i < |s| ==> HexVal(s[i]).Some? }

  predicate IsLowerDigit(c: char) { HexVal(c).Some? && LowerChar(c) == c }

  predicate IsLowerHex(s: string) { forall i :: 0 <= i < |s| ==> IsLowerDigit(s[i]) }

  /** `trim_start_matches("0x")`: every leading `0x`. */
  function StripPrefix(s: string): string
    decreases |s|
  {
    if |s| >= 2 && s[0] == '0' && s[1] == 'x' then StripPrefix(s[2..]) else s
  }

  predicate IsSpace(c: char) { c == ' ' || c == '\t' || c == '\n' || c == '\r' }

  function Trim(s: string): string
    decreases |s|
  {
    if |s| > 0 && IsSpace(s[0]) then Trim(s[1..])
    else if |s| > 0 && IsSpace(s[|s| - 1]) then Trim(s[..|s| - 1])
    else s
  }

  function FromHex(s: string): Result<seq<Byte>>
    decreases |s|
  {
    if s == [] then Ok([])
    else if |s| == 1 then Err(Validation)
    else
      var b := ByteOf(s[|s| - 2], s[|s| - 1]);
      match FromHex(s[..|s| - 2])
      case Err(e) => Err(e)
      case Ok(bs) => if b.Some? then Ok(bs + [b.value]) else Err(Validation)
  }

  function ByteOf(hi: char, lo: char): Option<Byte> {
    var h, l := HexVal(hi), HexVal(lo);
    if h.Some? && l.Some? then Some(16 * h.value + l.value) else None
  }

  function ToHex(bs: seq<Byte>): string {
    if bs == [] then []
    else
      var b := bs[|bs| - 1];
      ToHex(bs[..|bs| - 1]) + [HexDigit(b / 16), HexDigit(b % 16)]
  }

  /** The number a string of hex digits denotes. */
  function Value(s: string): nat
    requires IsHex(s)
  {
    if s == [] then 0 else 16 * Value(s[..|s| - 1]) + HexVal(s[|s| - 1]).value
  }

  function BigEndian(v: nat, n: nat): seq<Byte> {
    if n == 0 then [] else BigEndian(v / 256, n - 1) + [v % 256]
  }

  function Zeros(n: nat): seq<Byte> { seq(n, _ => 0) }

  // ------------------------------------------------------------------------- encoding ---

  /** `encode_transfer_call`. */
  method EncodeTransferCall(to: string, amount: int) returns (r: Result<seq<Byte>>)
    ensures r == Encoded(to, amount)
  {
    if amount <= 0 || amount > MAX_AMOUNT {
      return Err(InvalidAmount);
    }
    var body := StripPrefix(Lower(to));
    if |body| != 40 {
      return Err(Validation);
    }
    var out: seq<Byte> := [];
    out := out + TRANSFER_SELECTOR;
    out := out + Zeros(12);
    match FromHex(body) {
      case Err(e) => return Err(e);
      case Ok(address) =>
        out := out + address;
        out := out + Zeros(16);
        out := out + BigEndian(amount, 16);
        r := Ok(out);
        assert out == TRANSFER_SELECTOR + (Zeros(12) + address) + (Zeros(16) + BigEndian(amount, 16));
    }
  }

  /** The call: a selector and two 32-byte words, per the Solidity contract ABI. */
  function Encoded(to: string, amount: int): Result<seq<Byte>> {
    var body := StripPrefix(Lower(to));
    if amount <= 0 || amount > MAX_AMOUNT then Err(InvalidAmount)
    else if |body| != 40 then Err(Validation)
    else
      match FromHex(body)
      case Err(e) => Err(e)
      case Ok(address) => Ok(TRANSFER_SELECTOR + (Zeros(12) + address) + (Zeros(16) + BigEndian(amount, 16)))
  }

  /** The `i`-th argument word of a call, as hex text. */
  function WordText(call: seq<Byte>, i: nat): string
    requires |call| == 68 && i < 2
  {
    "0x" + ToHex(call[4 + 32 * i..36 + 32 * i])
  }

  // ------------------------------------------------------------------------- decoding ---

  /** `address_from_topic`. */
  function AddressFromTopic(topic: string): Result<string> {
    var body := StripPrefix(Trim(topic));
    if |body| != 64 || !IsHex(body) then Err(Validation)
    else if exists i :: 0 <= i < 24 && body[i] != '0' then Err(Validation)
    else Ok("0x" + body[24..])
  }

  function TrimZeros(s: string): string {
    if s != [] && s[0] == '0' then TrimZeros(s[1..]) else s
  }

  /** `Amount::from_hex_quantity` on text that is already known to be hex digits. */
  function FromHexQuantity(s: string): Result<int>
    requires IsHex(s)
  {
    if s == [] then Ok(0)
    else if |s| > 31 && |TrimZeros(s)| > 31 then Err(AmountOverflow)
    else if Value(s) > MAX_AMOUNT then Err(AmountOverflow)
    else Ok(Value(s))
  }

  /** `uint256_from_data`. */
  function Uint256FromData(data: string): Result<int> {
    var body := StripPrefix(Trim(data));
    if |body| != 64 || !IsHex(body) then Err(Validation) else FromHexQuantity(body)
  }

  /** `decode_transfer_log`: `Ok(None)` for another event, an error for a malformed `Transfer`. */
  function DecodeTransferLog(topics: seq<string>, data: string): Result<Option<Erc20Transfer>> {
    if topics == [] || Lower(topics[0]) != Lower(TRANSFER_TOPIC) then Ok(None)
    else if |topics| != 3 then Err(Validation)
    else
      match AddressFromTopic(topics[1])
      case Err(e) => Err(e)
      case Ok(from) =>
        match AddressFromTopic(topics[2])
        case Err(e) => Err(e)
        case Ok(to) =>
          match Uint256FromData(data)
          case Err(e) => Err(e)
          case Ok(value) => Ok(Some(Erc20Transfer(from, to, value)))
  }

  // --------------------------------------------------------------------- hex round trip ---

  lemma DigitValue(v: nat)
    requires v < 16
    ensures HexVal(HexDigit(v)) == Some(v) && LowerChar(HexDigit(v)) == HexDigit(v)
  {}

  lemma LowerDigit(c: char)
    requires HexVal(c).Some? && LowerChar(c) == c
    ensures HexDigit(HexVal(c).value) == c
  {}

  lemma {:induction false} ToHexShape(bs: seq<Byte>)
    ensures |ToHex(bs)| == 2 * |bs| && IsHex(ToHex(bs))
  {
    if bs != [] {
      ToHexShape(bs[..|bs| - 1]);
      DigitValue(bs[|bs| - 1] / 16);
      DigitValue(bs[|bs| - 1] % 16);
    }
  }

  lemma ByteOut(bs: seq<Byte>, h: nat, l: nat)
    requires h < 16 && l < 16
    ensures ToHex(bs + [16 * h + l]) == ToHex(bs) + [HexDigit(h), HexDigit(l)]
  {
    assert (bs + [16 * h + l])[..|bs + [16 * h + l]| - 1] == bs;
    assert (16 * h + l) / 16 == h && (16 * h + l) % 16 == l;
  }

  lemma ByteIn(front: string, hi: char, lo: char)
    requires FromHex(front).Ok? && ByteOf(hi, lo).Some?
    ensures FromHex(front + [hi, lo]) == Ok(FromHex(front).value + [ByteOf(hi, lo).value])
  {
    var s := front + [hi, lo];
    assert s[..|s| - 2] == front;
  }

  lemma RoundTripPair(front: string, hi: char, lo: char)
    requires FromHex(front).Ok? && |FromHex(front).value| == |front| / 2 && |front| % 2 == 0
    requires ToHex(FromHex(front).value) == front
    requires HexVal(hi).Some? && HexVal(lo).Some? && HexDigit(HexVal(hi).value) == hi
    requires HexDigit(HexVal(lo).value) == lo
    ensures var r := FromHex(front + [hi, lo]);
      r.Ok? && |r.value| == |front| / 2 + 1 && ToHex(r.value) == front + [hi, lo]
  {
    ByteIn(front, hi, lo);
    ByteOut(FromHex(front).value, HexVal(hi).value, HexVal(lo).value);
  }

  /** Decoding lower-case hex to bytes and writing them out again gives the same text. */
  lemma {:induction false} HexRoundTrip(s: string)
    requires IsLowerHex(s) && |s| % 2 == 0
    ensures FromHex(s).Ok? && |FromHex(s).value| == |s| / 2 && ToHex(FromHex(s).value) == s
    decreases |s|
  {
    if s != [] {
      var front, hi, lo := s[..|s| - 2], s[|s| - 2], s[|s| - 1];
      HexRoundTrip(front);
      LastPair(s, front, hi, lo);
    }
  }

  lemma LastPair(s: string, front: string, hi: char, lo: char)
    requires s == front + [hi, lo] && IsLowerDigit(hi) && IsLowerDigit(lo)
    requires FromHex(front).Ok? && |FromHex(front).value| == |front| / 2 && |front| % 2 == 0
    requires ToHex(FromHex(front).value) == front
    ensures FromHex(s).Ok? && |FromHex(s).value| == |s| / 2 && ToHex(FromHex(s).value) == s
  {
    LowerDigit(hi);
    LowerDigit(lo);
    RoundTripPair(front, hi, lo);
  }

  lemma {:induction false} ToHexConcat(x: seq<Byte>, y: seq<Byte>)
    ensures ToHex(x + y) == ToHex(x) + ToHex(y)
  {
    if y == [] {
      assert x + y == x;
    } else {
      assert (x + y)[..|x + y| - 1] == x + y[..|y| - 1];
      ToHexConcat(x, y[..|y| - 1]);
    }
  }

  ghost predicate AllZero(s: string) { forall i :: 0 <= i < |s| ==> s[i] == '0' }

  lemma {:induction false} ToHexZeros(n: nat)
    ensures |ToHex(Zeros(n))| == 2 * n && AllZero(ToHex(Zeros(n)))
  {
    if n > 0 {
      assert Zeros(n)[..n - 1] == Zeros(n - 1);
      ToHexZeros(n - 1);
    }
  }

  // ---------------------------------------------------------------------- hex and values ---

  function Pow16(n: nat): nat { if n == 0 then 1 else 16 * Pow16(n - 1) }

  lemma {:induction false} ValueBound(s: string)
    requires IsHex(s)
    ensures Value(s) < Pow16(|s|)
  {
    if s != [] {
      ValueBound(s[..|s| - 1]);
    }
  }

  lemma Shifted(x: nat, p: nat, y: nat, d: nat)
    ensures 16 * (x * p + y) + d == x * (16 * p) + (16 * y + d)
  {}

  lemma {:induction false} ValueConcat(x: string, y: string)
    requires IsHex(x) && IsHex(y)
    ensures IsHex(x + y) && Value(x + y) == Value(x) * Pow16(|y|) + Value(y)
  {
    if y == [] {
      assert x + y == x;
    } else {
      var y', c := y[..|y| - 1], y[|y| - 1];
      assert (x + y)[..|x + y| - 1] == x + y';
      ValueConcat(x, y');
      Shifted(Value(x), Pow16(|y'|), Value(y'), HexVal(c).value);
    }
  }

  lemma {:induction false} ValueZero(s: string)
    requires IsHex(s)
    ensures Value(s) == 0 <==> AllZero(s)
  {
    if s != [] {
      ValueZero(s[..|s| - 1]);
    }
  }

  lemma {:induction false} TrimZerosLength(s: string, n: nat)
    requires n <= |s|
    ensures |TrimZeros(s)| <= |s| - n <==> AllZero(s[..n])
  {
    if n > 0 {
      if s[0] == '0' {
        TrimZerosLength(s[1..], n - 1);
        assert s[..n] == [s[0]] + s[1..][..n - 1];
      } else {
        assert s[..n][0] != '0';
      }
    } else {
      TrimZerosShorter(s);
    }
  }

  lemma {:induction false} TrimZerosShorter(s: string)
    ensures |TrimZeros(s)| <= |s|
  {
    if s != [] && s[0] == '0' {
      TrimZerosShorter(s[1..]);
    }
  }

  /** Dropping leading zeros leaves at most 31 of 64 digits exactly when the value is below 16^31. */
  lemma ShortIffSmall(s: string)
    requires IsHex(s) && |s| == 64
    ensures |TrimZeros(s)| <= 31 <==> Value(s) < Pow16(31)
  {
    var x, y := s[..33], s[33..];
    assert s == x + y;
    ValueConcat(x, y);
    ValueBound(y);
    ValueZero(x);
    TrimZerosLength(s, 33);
    HighPart(Value(x), Pow16(|y|), Value(y));
  }

  lemma HighPart(x: nat, p: nat, y: nat)
    requires y < p
    ensures x * p + y < p <==> x == 0
  {
    if x > 0 {
      assert x * p == (x - 1) * p + p;
    }
  }

  function Pow256(n: nat): nat { if n == 0 then 1 else 256 * Pow256(n - 1) }

  /** The hex text of a big-endian number denotes the number. */
  lemma {:induction false} ValueOfBigEndian(v: nat, n: nat)
    requires v < Pow256(n)
    ensures |BigEndian(v, n)| == n && IsHex(ToHex(BigEndian(v, n))) && Value(ToHex(BigEndian(v, n))) == v
  {
    ToHexShape(BigEndian(v, n));
    if n > 0 {
      ValueOfBigEndian(v / 256, n - 1);
      var front, b := BigEndian(v / 256, n - 1), v % 256;
      assert BigEndian(v, n)[..|front|] == front;
      var hi, lo := HexDigit(b / 16), HexDigit(b % 16);
      DigitValue(b / 16);
      DigitValue(b % 16);
      var s := ToHex(BigEndian(v, n));
      assert s == ToHex(front) + [hi, lo];
      assert s[..|s| - 1] == ToHex(front) + [hi] && s[..|s| - 1][..|s| - 2] == ToHex(front);
    }
  }

  lemma AmountFits(v: nat)
    requires v <= MAX_AMOUNT
    ensures v < Pow256(16)
  {
    assert Pow256(4) == 0x1_0000_0000;
    assert Pow256(8) == 0x1_0000_0000_0000_0000;
    assert Pow256(12) == 0x1_0000_0000_0000_0000_0000_0000;
    assert Pow256(16) == 0x1_0000_0000_0000_0000_0000_0000_0000_0000;
  }

  // ------------------------------------------------------------------------- round trips ---

  /** A canonical address: `0x` and forty lower-case hex digits. */
  predicate IsAddress(s: string) { |s| == 42 && s[..2] == "0x" && IsLowerHex(s[2..]) }

  lemma StripOnce(body: string)
    requires IsHex(body)
    ensures StripPrefix("0x" + body) == body && StripPrefix(body) == body
  {
    assert ("0x" + body)[2..] == body;
  }

  lemma NothingToTrim(body: string)
    requires IsHex(body)
    ensures Trim("0x" + body) == "0x" + body
  {
    var s := "0x" + body;
    assert !IsSpace(s[0]) && !IsSpace(s[|s| - 1]);
  }

  lemma LowerPrefix(body: string)
    requires IsLowerHex(body)
    ensures Lower("0x" + body) == "0x" + body
  {
    var s := "0x" + body;
    forall i | 0 <= i < |s| ensures Lower(s)[i] == s[i] {
      if i >= 2 { assert IsLowerDigit(body[i - 2]); }
    }
  }

  lemma AddressWord(address: string, bytes: seq<Byte>)
    requires IsAddress(address) && FromHex(address[2..]) == Ok(bytes) && |bytes| == 20 && ToHex(bytes) == address[2..]
    ensures AddressFromTopic("0x" + ToHex(Zeros(12) + bytes)) == Ok(address)
  {
    var body := ToHex(Zeros(12) + bytes);
    ToHexConcat(Zeros(12), bytes);
    ToHexZeros(12);
    ToHexShape(Zeros(12) + bytes);
    StripOnce(body);
    NothingToTrim(body);
    assert body[24..] == address[2..] && address == "0x" + address[2..];
  }

  /** Exactly the amounts below 16^31 come back; a larger one is refused, never misread. */
  lemma AmountWord(amount: nat)
    requires amount <= MAX_AMOUNT
    ensures Uint256FromData("0x" + ToHex(Zeros(16) + BigEndian(amount, 16)))
         == if amount < Pow16(31) then Ok(amount) else Err(AmountOverflow)
  {
    var word := BigEndian(amount, 16);
    var body := ToHex(Zeros(16) + word);
    AmountFits(amount);
    ValueOfBigEndian(amount, 16);
    ToHexConcat(Zeros(16), word);
    ToHexZeros(16);
    ToHexShape(Zeros(16) + word);
    StripOnce(body);
    NothingToTrim(body);
    ToHexShape(Zeros(16));
    ValueZero(ToHex(Zeros(16)));
    ValueConcat(ToHex(Zeros(16)), ToHex(word));
    assert Value(body) == amount;
    ShortIffSmall(body);
  }

  // ------------------------------------------------------------- what a token's log decodes to ---

  /** The amounts `decode_transfer_log` takes: at most 31 hex digits. */
  predicate Decodable(amount: nat) { amount < Pow16(31) }

  lemma DecodableFits(amount: nat)
    requires Decodable(amount)
    ensures amount <= MAX_AMOUNT && (IsPositive(amount) <==> amount != 0)
  {
    assert Pow16(8) == 0x1_0000_0000;
    assert Pow16(16) == 0x1_0000_0000_0000_0000;
    assert Pow16(24) == 0x1_0000_0000_0000_0000_0000_0000;
    assert Pow16(31) == 0x1000_0000_0000_0000_0000_0000_0000_0000;
  }

  lemma {:induction false} PowPositive(n: nat)
    ensures Pow16(n) > 0
  {
    if n > 0 {
      PowPositive(n - 1);
    }
  }

  lemma ZeroIsDecodable()
    ensures Decodable(0)
  {
    PowPositive(31);
  }

  /** An address as a 32-byte topic, and an amount as the 32-byte data, of a token's `Transfer` log. */
  function TopicText(address: string): string
    requires |address| >= 2
  {
    match FromHex(address[2..])
    case Ok(bytes) => "0x" + ToHex(Zeros(12) + bytes)
    case Err(_) => ""
  }

  function DataText(amount: nat): string { "0x" + ToHex(BigEndian(amount, 32)) }

  lemma DataWord(amount: nat)
    requires amount < Pow256(32)
    ensures Uint256FromData(DataText(amount)) == if Decodable(amount) then Ok(amount) else Err(AmountOverflow)
  {
    var body := ToHex(BigEndian(amount, 32));
    ValueOfBigEndian(amount, 32);
    ToHexShape(BigEndian(amount, 32));
    StripOnce(body);
    NothingToTrim(body);
    ShortIffSmall(body);
    if Decodable(amount) {
      DecodableFits(amount);
    }
  }

  lemma TopicWord(address: string)
    requires IsAddress(address)
    ensures AddressFromTopic(TopicText(address)) == Ok(address)
  {
    HexRoundTrip(address[2..]);
    AddressWord(address, FromHex(address[2..]).value);
  }

  /**
   * The log of any 256-bit transfer decodes to that transfer exactly when the amount is below 16^31;
   * otherwise to an error.
   */
  lemma TokenLogDecodesIff(from: string, to: string, amount: nat)
    requires IsAddress(from) && IsAddress(to) && amount < Pow256(32)
    ensures DecodeTransferLog([TRANSFER_TOPIC, TopicText(from), TopicText(to)], DataText(amount))
         == if Decodable(amount) then Ok(Some(Erc20Transfer(from, to, amount))) else Err(AmountOverflow)
  {
    TopicWord(from);
    TopicWord(to);
    DataWord(amount);
  }

  /**
   * The round trip: for every address and every positive amount, reading the two words of the
   * encoded call as a log gives back the address, and the amount exactly when it is below 16^31.
   */
  lemma CallRoundTrip(to: string, amount: int)
    requires IsAddress(to) && 0 < amount <= MAX_AMOUNT
    ensures Encoded(to, amount).Ok? && |Encoded(to, amount).value| == 68
    ensures var call := Encoded(to, amount).value;
      && call[..4] == TRANSFER_SELECTOR
      && AddressFromTopic(WordText(call, 0)) == Ok(to)
      && Uint256FromData(WordText(call, 1)) == if amount < Pow16(31) then Ok(amount) else Err(AmountOverflow)
  {
    var body := to[2..];
    assert to == "0x" + body;
    LowerPrefix(body);
    StripOnce(body);
    HexRoundTrip(body);
    var bytes := FromHex(body).value;
    AmountFits(amount);
    ValueOfBigEndian(amount, 16);
    var call := Encoded(to, amount).value;
    assert call[4..36] == Zeros(12) + bytes;
    assert call[36..68] == Zeros(16) + BigEndian(amount, 16);
    AddressWord(to, bytes);
    AmountWord(amount);
  }

  /** The log a token emits for a transfer decodes to that transfer, or to an error from 16^31 on. */
  lemma LogRoundTrip(from: string, to: string, amount: int)
    requires IsAddress(from) && IsAddress(to) && 0 < amount <= MAX_AMOUNT
    ensures Encoded(from, amount).Ok? && Encoded(to, amount).Ok?
    ensures |Encoded(from, amount).value| == 68 && |Encoded(to, amount).value| == 68
    ensures var x, y := Encoded(from, amount).value, Encoded(to, amount).value;
      DecodeTransferLog([TRANSFER_TOPIC, WordText(x, 0), WordText(y, 0)], WordText(y, 1))
      == if amount < Pow16(31) then Ok(Some(Erc20Transfer(from, to, amount))) else Err(AmountOverflow)
  {
    CallRoundTrip(from, amount);
    CallRoundTrip(to, amount);
  }

  /** Whatever is decoded is in range and spelt out by the log: nothing is truncated. */
  lemma DecodedIsExact(topics: seq<string>, data: string)
    requires DecodeTransferLog(topics, data).Ok? && DecodeTransferLog(topics, data).value.Some?
    ensures var t := DecodeTransferLog(topics, data).value.value;
      && IsHex(StripPrefix(Trim(data))) && t.value == Value(StripPrefix(Trim(data))) && 0 <= t.value < Pow16(31)
  {
    ShortIffSmall(StripPrefix(Trim(data)));
  }
}
