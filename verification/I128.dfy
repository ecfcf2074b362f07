/**
 * The wire forms of integers and bytes: 16-byte big-endian two's complement, high and low halves, hex,
 * and the parameter map of a yield proposal. Masks and shifts of the source's bigints are written as
 * remainders and floor divisions by powers of two.
 */
module I128 {
  import opened Arithmetic
  import opened Prelude

  type Byte = b: int | 0 <= b < 256

  const TWO_63: int := 0x8000_0000_0000_0000
  const TWO_64: int := 0x1_0000_0000_0000_0000
  const TWO_127: int := 0x8000_0000_0000_0000_0000_0000_0000_0000
  const TWO_128: int := 0x1_0000_0000_0000_0000_0000_0000_0000_0000

  predicate IsI128(n: int) { -TWO_127 <= n < TWO_127 }

  datatype RangeError = RangeError

  // ---- Big-endian bytes ----

  function Pow256(k: nat): (p: int)
    ensures p >= 1
  {
    if k == 0 then 1 else 256 * Pow256(k - 1)
  }

  /** The `k` low bytes of `n`, highest first. */
  function BytesOf(n: nat, k: nat): seq<Byte> {
    if k == 0 then [] else BytesOf(n / 256, k - 1) + [n % 256]
  }

  function ValueOf(bytes: seq<Byte>): nat {
    if bytes == [] then 0 else 256 * ValueOf(bytes[..|bytes| - 1]) + bytes[|bytes| - 1]
  }

  lemma Pow256Of16()
    ensures Pow256(15) * 128 == TWO_127 && Pow256(16) == TWO_128
  {
    assert Pow256(4) == 0x1_0000_0000;
    assert Pow256(8) == TWO_64;
    assert Pow256(12) == TWO_64 * 0x1_0000_0000;
    assert Pow256(15) == TWO_64 * 0x1_0000_0000 * 0x100_0000;
  }

  lemma {:induction false} ValueOfBytes(n: nat, k: nat)
    requires n < Pow256(k)
    ensures |BytesOf(n, k)| == k && ValueOf(BytesOf(n, k)) == n
  {
    if k > 0 {
      ValueOfBytes(n / 256, k - 1);
      var head := BytesOf(n / 256, k - 1);
      assert (head + [n % 256])[..k - 1] == head;
    }
  }

  lemma ValuePush(init: seq<Byte>, last: Byte)
    ensures ValueOf(init + [last]) == 256 * ValueOf(init) + last
  {
    assert (init + [last])[..|init|] == init;
  }

  lemma BytesPush(n: nat, last: Byte, k: nat)
    ensures BytesOf(256 * n + last, k + 1) == BytesOf(n, k) + [last]
  {
  }

  lemma {:induction false} BytesOfValue(bytes: seq<Byte>)
    ensures ValueOf(bytes) < Pow256(|bytes|) && BytesOf(ValueOf(bytes), |bytes|) == bytes
  {
    if bytes != [] {
      hide ValueOf, BytesOf;
      var init, last := bytes[..|bytes| - 1], bytes[|bytes| - 1];
      assert bytes == init + [last];
      BytesOfValue(init);
      ValuePush(init, last);
      BytesPush(ValueOf(init), last, |init|);
    }
  }

  lemma {:induction false} TopByte(bytes: seq<Byte>)
    requires bytes != []
    ensures bytes[0] * Pow256(|bytes| - 1) <= ValueOf(bytes) < (bytes[0] + 1) * Pow256(|bytes| - 1)
  {
    var init := bytes[..|bytes| - 1];
    if init == [] {
      assert ValueOf(bytes) == bytes[0];
    } else {
      TopByte(init);
      TimesAssociates(256, bytes[0], Pow256(|init| - 1));
      TopByteStep(bytes[0], Pow256(|init| - 1), ValueOf(init), bytes[|bytes| - 1]);
    }
  }

  lemma TopByteStep(top: int, p: int, v: int, b: Byte)
    requires top * p <= v < (top + 1) * p
    ensures top * (256 * p) <= 256 * v + b < (top + 1) * (256 * p)
  {
    TimesAssociates(top, p, 256);
    TimesAssociates(top + 1, p, 256);
  }

  // ---- The i128 codec ----

  function Encoded(value: int): seq<Byte>
    requires IsI128(value)
  {
    BytesOf(if value < 0 then value + TWO_128 else value, 16)
  }

  function Decoded(bytes: seq<Byte>): int
    requires |bytes| == 16
  {
    if bytes[0] >= 128 then ValueOf(bytes) - TWO_128 else ValueOf(bytes)
  }

  method I128ToBeBytes(value: int) returns (r: Result<array<Byte>, RangeError>)
    ensures r.Ok? <==> IsI128(value)
    ensures r.Ok? ==> fresh(r.value) && r.value[..] == Encoded(value)
  {
    if value < -TWO_127 || value > TWO_127 - 1 {
      return Err(RangeError);
    }
    var normalized: nat := if value < 0 then value + TWO_128 else value;
    ghost var start := normalized;
    var out := new Byte[16];
    var i := 15;
    while i >= 0
      invariant -1 <= i <= 15
      invariant BytesOf(start, 16) == BytesOf(normalized, i + 1) + out[i + 1..]
    {
      ghost var before := out[i + 1..];
      out[i] := normalized % 256;
      assert out[i..] == [normalized % 256] + before;
      normalized := normalized / 256;
      i := i - 1;
    }
    assert out[0..] == out[..];
    return Ok(out);
  }

  method BytesToI128(value: array<Byte>) returns (r: Result<int, RangeError>)
    ensures r.Ok? <==> value.Length == 16
    ensures r.Ok? ==> r.value == Decoded(value[..])
  {
    if value.Length != 16 {
      return Err(RangeError);
    }
    var result := 0;
    for i := 0 to value.Length
      invariant result == ValueOf(value[..i])
    {
      assert value[..i + 1][..i] == value[..i];
      result := result * 256 + value[i];
    }
    assert value[..16] == value[..];
    if value[0] >= 128 {
      result := result - TWO_128;
    }
    return Ok(result);
  }

  /** The sign bit is the top bit of the value. */
  lemma SignBit(bytes: seq<Byte>)
    requires |bytes| == 16
    ensures bytes[0] >= 128 <==> ValueOf(bytes) >= TWO_127
    ensures ValueOf(bytes) < TWO_128
  {
    hide ValueOf, Pow256;
    TopByte(bytes);
    BytesOfValue(bytes);
    Pow256Of16();
    var p := Pow256(15);
    if bytes[0] >= 128 {
      TimesAtLeast(128, bytes[0], p);
    } else {
      TimesAtLeast(bytes[0] + 1, 128, p);
    }
  }

  lemma TimesAtLeast(a: int, b: int, m: int)
    requires a <= b && m >= 1
    ensures a * m <= b * m
  {
    if a < b {
      TimesIsStrict(a, b, m);
    }
  }

  /** Every i128 survives its sixteen bytes. */
  lemma I128ReadsBack(value: int)
    requires IsI128(value)
    ensures |Encoded(value)| == 16 && Decoded(Encoded(value)) == value
  {
    hide ValueOf, BytesOf;
    Pow256Of16();
    ValueOfBytes(if value < 0 then value + TWO_128 else value, 16);
    SignBit(Encoded(value));
  }

  lemma QuotientOfQuotient(n: nat, p: int)
    requires p >= 1
    ensures n / 256 / p == n / (256 * p)
  {
    var q, r := n / 256 / p, n / 256 % p;
    assert n / 256 == q * p + r;
    assert n == q * (256 * p) + (256 * r + n % 256) by {
      TimesAssociates(q, p, 256);
    }
    assert 256 * r + n % 256 < 256 * p;
    DivMod(q, 256 * p, 256 * r + n % 256);
  }

  lemma {:induction false} EachByte(n: nat, k: nat, j: nat)
    requires j < k
    ensures |BytesOf(n, k)| == k && BytesOf(n, k)[k - 1 - j] == n / Pow256(j) % 256
  {
    if j > 0 {
      EachByte(n / 256, k - 1, j - 1);
      QuotientOfQuotient(n, Pow256(j - 1));
    } else if k > 1 {
      EachByte(n / 256, k - 1, 0);
    }
  }

  /** Counted from the end, byte `j` is the digit of weight 256^j of the value, modulo 2^128. */
  lemma EncodedIsBigEndian(value: int, j: nat)
    requires IsI128(value) && j < 16
    ensures |Encoded(value)| == 16
    ensures Encoded(value)[15 - j] == (value % 0x1_0000_0000_0000_0000_0000_0000_0000_0000) / Pow256(j) % 256
  {
    hide BytesOf, Pow256;
    var normalized := if value < 0 then value + TWO_128 else value;
    EachByte(normalized, 16, j);
    DivMod(if value < 0 then -1 else 0, TWO_128, normalized);
    assert value % TWO_128 == normalized;
  }

  /** Every sixteen bytes are the encoding of an i128. */
  lemma BytesReadBack(bytes: seq<Byte>)
    requires |bytes| == 16
    ensures IsI128(Decoded(bytes)) && Encoded(Decoded(bytes)) == bytes
  {
    hide ValueOf, BytesOf;
    SignBit(bytes);
    BytesOfValue(bytes);
  }

  // ---- High and low halves ----

  /** The contract values the indexer turns into integers; `ScOther` is every other kind. */
  datatype ScVal =
    | ScI128(hi: int, lo: int)
    | ScU128(hi: int, lo: int)
    | ScU64(value: int)
    | ScI64(value: int)
    | ScOther

  function ScI128Of(value: int): Result<ScVal, RangeError> {
    if value < -TWO_127 || value > TWO_127 - 1 then Err(RangeError)
    else Ok(ScI128(value / TWO_64, value % TWO_64))
  }

  function ScU64Of(value: int): Result<ScVal, RangeError> {
    if value < 0 || value > TWO_64 - 1 then Err(RangeError) else Ok(ScU64(value))
  }

  /** `(hi << 64n) | lo`: the halves do not overlap. */
  function ScValToBigInt(val: ScVal): int {
    match val
    case ScI128(hi, lo) => hi * TWO_64 + lo
    case ScU128(hi, lo) => hi * TWO_64 + lo
    case ScU64(v) => v
    case ScI64(v) => v
    case ScOther => 0
  }

  /** Halves the XDR constructors accept: a signed and an unsigned 64-bit integer. */
  predicate FitsI128(val: ScVal) {
    val.ScI128? && -TWO_63 <= val.hi < TWO_63 && 0 <= val.lo < TWO_64
  }

  /** Splitting and recombining undo each other, on every i128 and on every pair of halves. */
  lemma HalvesReadBack(value: int, val: ScVal)
    ensures ScI128Of(value).Ok? <==> IsI128(value)
    ensures ScI128Of(value).Ok? ==> FitsI128(ScI128Of(value).value) && ScValToBigInt(ScI128Of(value).value) == value
    ensures FitsI128(val) ==> ScI128Of(ScValToBigInt(val)) == Ok(val)
    ensures ScU64Of(value).Ok? ==> ScValToBigInt(ScU64Of(value).value) == value
    ensures val.ScU128? && 0 <= val.lo < 0x1_0000_0000_0000_0000 ==>
              && ScValToBigInt(val) / 0x1_0000_0000_0000_0000 == val.hi
              && ScValToBigInt(val) % 0x1_0000_0000_0000_0000 == val.lo
    ensures val.ScU64? || val.ScI64? ==> ScValToBigInt(val) == val.value
    ensures val.ScOther? ==> ScValToBigInt(val) == 0
  {
    if val.ScU128? && 0 <= val.lo < TWO_64 {
      DivMod(val.hi, TWO_64, val.lo);
    }
    if FitsI128(val) {
      DivMod(val.hi, TWO_64, val.lo);
    }
  }

  // ---- Hex ----

  predicate IsHexDigit(c: char) { '0' <= c <= '9' || 'a' <= c <= 'f' || 'A' <= c <= 'F' }

  function HexValue(c: char): (k: nat)
    ensures k < 16
  {
    if '0' <= c <= '9' then c as int - '0' as int
    else if 'a' <= c <= 'f' then c as int - 'a' as int + 10
    else if 'A' <= c <= 'F' then c as int - 'A' as int + 10
    else 0
  }

  function HexDigit(k: nat): (c: char)
    requires k < 16
    ensures IsHexDigit(c) && HexValue(c) == k && LowerChar(c) == c
  {
    if k < 10 then '0' + k as char else 'a' + (k - 10) as char
  }

  function HexOfByte(b: Byte): string { [HexDigit(b / 16), HexDigit(b % 16)] }

  function BytesToHex(bytes: seq<Byte>): string {
    if bytes == [] then "" else BytesToHex(bytes[..|bytes| - 1]) + HexOfByte(bytes[|bytes| - 1])
  }

  /** `Buffer.from(hex, "hex")`: pair by pair, up to the first that is not hex. */
  function HexPairs(hex: string): seq<Byte> {
    if |hex| < 2 || !IsHexDigit(hex[0]) || !IsHexDigit(hex[1]) then []
    else [16 * HexValue(hex[0]) + HexValue(hex[1])] + HexPairs(hex[2..])
  }

  predicate AllHex(hex: string) { forall c <- hex :: IsHexDigit(c) }

  function HexToBytes(hex: string): Result<seq<Byte>, RangeError> {
    if |hex| % 2 != 0 || !AllHex(hex) then Err(RangeError) else Ok(HexPairs(hex))
  }

  lemma BytesToHexFront(b: Byte, rest: seq<Byte>)
    ensures BytesToHex([b] + rest) == HexOfByte(b) + BytesToHex(rest)
    decreases |rest|
  {
    if rest == [] {
      assert [b] + rest == [b] && [b][..0] == [];
    } else {
      var init := rest[..|rest| - 1];
      assert ([b] + rest)[..|rest|] == [b] + init;
      BytesToHexFront(b, init);
    }
  }

  lemma {:induction false} HexPairsOfBytes(bytes: seq<Byte>)
    ensures HexPairs(BytesToHex(bytes)) == bytes
    ensures |BytesToHex(bytes)| == 2 * |bytes| && AllHex(BytesToHex(bytes))
  {
    if bytes != [] {
      var b, rest := bytes[0], bytes[1..];
      assert bytes == [b] + rest;
      BytesToHexFront(b, rest);
      HexPairsOfBytes(rest);
      var hex := HexOfByte(b) + BytesToHex(rest);
      assert hex[2..] == BytesToHex(rest);
    }
  }

  /** Bytes survive their hex, and the strict reader takes it. */
  lemma HexReadsBack(bytes: seq<Byte>)
    ensures HexToBytes(BytesToHex(bytes)) == Ok(bytes)
  {
    HexPairsOfBytes(bytes);
  }

  lemma ToLowerFront(a: char, b: char, rest: string)
    ensures ToLower([a, b] + rest) == [LowerChar(a), LowerChar(b)] + ToLower(rest)
  {
  }

  lemma PairPrintsBack(a: char, b: char)
    requires IsHexDigit(a) && IsHexDigit(b)
    ensures HexOfByte(16 * HexValue(a) + HexValue(b)) == [LowerChar(a), LowerChar(b)]
  {
    LowerOfHex(a);
    LowerOfHex(b);
  }

  lemma PairsFront(a: char, b: char, rest: string)
    requires IsHexDigit(a) && IsHexDigit(b)
    ensures HexPairs([a, b] + rest) == [16 * HexValue(a) + HexValue(b)] + HexPairs(rest)
  {
    assert ([a, b] + rest)[2..] == rest;
  }

  lemma NoHex()
    ensures BytesToHex(HexPairs("")) == ToLower("") == ""
  {
  }

  lemma {:induction false} HexPairsPrintBack(hex: string)
    requires |hex| % 2 == 0 && AllHex(hex)
    ensures BytesToHex(HexPairs(hex)) == ToLower(hex)
  {
    hide BytesToHex, HexPairs, ToLower, LowerChar, HexOfByte, IsHexDigit, HexValue;
    if hex == "" {
      NoHex();
    } else {
      var a, b, rest := hex[0], hex[1], hex[2..];
      assert a in hex && b in hex && hex == [a, b] + rest;
      assert AllHex(rest) by { forall c | c in rest ensures c in hex {} }
      HexPairsPrintBack(rest);
      PairsFront(a, b, rest);
      PairPrintsBack(a, b);
      BytesToHexFront(16 * HexValue(a) + HexValue(b), HexPairs(rest));
      ToLowerFront(a, b, rest);
      assert HexPairs(hex) == [16 * HexValue(a) + HexValue(b)] + HexPairs(rest);
      assert ToLower(hex) == [LowerChar(a), LowerChar(b)] + ToLower(rest);
    }
  }

  /** Hex the reader takes prints back in lower case. */
  lemma HexPrintsBack(hex: string)
    requires HexToBytes(hex).Ok?
    ensures BytesToHex(HexToBytes(hex).value) == ToLower(hex)
  {
    HexPairsPrintBack(hex);
  }

  lemma LowerOfHex(c: char)
    requires IsHexDigit(c)
    ensures LowerChar(c) == HexDigit(HexValue(c))
  {
  }

  // ---- Governance parameters ----

  /** `n.toString(16)` */
  function HexOf(n: nat): string {
    if n < 16 then [HexDigit(n)] else HexOf(n / 16) + [HexDigit(n % 16)]
  }

  function EncodeParamHex(value: int): Result<string, RangeError> {
    if value < 0 || value >= TWO_128 then Err(RangeError) else Ok(PadStart(HexOf(value), 32))
  }

  /** The `m` low hex digits of `n`. */
  function FixedHex(n: nat, m: nat): string {
    if m == 0 then "" else FixedHex(n / 16, m - 1) + [HexDigit(n % 16)]
  }

  function Pow16(m: nat): (p: int)
    ensures p >= 1
  {
    if m == 0 then 1 else 16 * Pow16(m - 1)
  }

  lemma {:induction false} FixedHexOfZero(m: nat)
    ensures FixedHex(0, m) == Zeros(m)
  {
    if m > 0 {
      FixedHexOfZero(m - 1);
      assert Zeros(m) == Zeros(m - 1) + ['0'];
    }
  }

  lemma {:induction false} PaddedHexIsFixed(n: nat, m: nat)
    requires m >= 1 && n < Pow16(m)
    ensures PadStart(HexOf(n), m) == FixedHex(n, m)
  {
    if n < 16 {
      FixedHexOfZero(m - 1);
    } else {
      PaddedHexIsFixed(n / 16, m - 1);
      var head := HexOf(n / 16);
      assert PadStart(head + [HexDigit(n % 16)], m) == PadStart(head, m - 1) + [HexDigit(n % 16)];
    }
  }

  lemma BytesToHexPush(bytes: seq<Byte>, b: Byte)
    ensures BytesToHex(bytes + [b]) == BytesToHex(bytes) + HexOfByte(b)
  {
    assert (bytes + [b])[..|bytes|] == bytes;
  }

  lemma TwoHexDigits(n: nat)
    ensures n / 16 / 16 == n / 256 && (n / 16) % 16 == (n % 256) / 16 && n % 16 == (n % 256) % 16
  {
  }

  lemma FixedHexByte(n: nat, m: nat)
    ensures FixedHex(n, m + 2) == FixedHex(n / 256, m) + HexOfByte(n % 256)
  {
    TwoHexDigits(n);
    assert FixedHex(n, m + 2) == FixedHex(n / 16, m + 1) + [HexDigit(n % 16)];
    assert FixedHex(n / 16, m + 1) == FixedHex(n / 16 / 16, m) + [HexDigit(n / 16 % 16)];
  }

  lemma {:induction false} FixedHexOfBytes(n: nat, k: nat)
    ensures FixedHex(n, 2 * k) == BytesToHex(BytesOf(n, k))
  {
    if k > 0 {
      assert BytesOf(n, k) == BytesOf(n / 256, k - 1) + [n % 256];
      hide FixedHex, BytesToHex, BytesOf, HexOfByte;
      FixedHexOfBytes(n / 256, k - 1);
      FixedHexByte(n, 2 * (k - 1));
      BytesToHexPush(BytesOf(n / 256, k - 1), n % 256);
    }
  }

  lemma Pow16Of32()
    ensures Pow16(32) == TWO_128
  {
    assert Pow16(8) == 0x1_0000_0000;
    assert Pow16(16) == TWO_64;
    assert Pow16(24) == TWO_64 * 0x1_0000_0000;
  }

  /** The parameter is the hex of the sixteen bytes, for everything the encoder accepts. */
  lemma ParamIsHexOfBytes(value: int)
    requires 0 <= value < TWO_128
    ensures EncodeParamHex(value) == Ok(BytesToHex(BytesOf(value, 16)))
  {
    hide HexOf, FixedHex, BytesOf, BytesToHex, Pow16;
    Pow16Of32();
    PaddedHexIsFixed(value, 32);
    FixedHexOfBytes(value, 16);
  }

  /**
   * Read as the i128 the contract expects, an accepted parameter is the value exactly below 2^127; the
   * encoder accepts up to 2^128.
   */
  lemma ParamDecodes(value: int)
    requires 0 <= value < TWO_128
    ensures EncodeParamHex(value).Ok?
    ensures var bytes := HexToBytes(EncodeParamHex(value).value);
            && bytes.Ok? && |bytes.value| == 16
            && (value < TWO_127 ==> bytes.value == Encoded(value))
            && (Decoded(bytes.value) == value <==> value < TWO_127)
  {
    hide BytesOf, BytesToHex, ValueOf, HexToBytes, EncodeParamHex;
    ParamIsHexOfBytes(value);
    HexReadsBack(BytesOf(value, 16));
    Pow256Of16();
    ValueOfBytes(value, 16);
    SignBit(BytesOf(value, 16));
  }

  datatype YieldAction = Alloc | Dealloc

  function ActionText(action: YieldAction): string {
    match action case Alloc => "alloc" case Dealloc => "dealloc"
  }

  datatype YieldInput = YieldInput(action: YieldAction, vault: Option<string>, amountBaseUnits: int)

  datatype ParamsError = AmountOutOfRange | VaultRequired | InvalidVault

  predicate IsBase32(c: char) { 'A' <= c <= 'Z' || '2' <= c <= '7' }

  /** `/^C[A-Z2-7]{55}$/` */
  predicate IsValidContractId(id: string) {
    |id| == 56 && id[0] == 'C' && forall c <- id[1..] :: IsBase32(c)
  }

  predicate IsAscii(s: string) { forall c <- s :: c < '\U{0080}' }

  /** The UTF-8 bytes of an ASCII string. */
  function AsciiBytes(s: string): seq<Byte>
    requires IsAscii(s)
  {
    seq(|s|, i requires 0 <= i < |s| => assert s[i] in s; ByteOf(s[i]))
  }

  function ByteOf(c: char): Byte
    requires c < '\U{0080}'
  {
    c as int
  }

  lemma ContractIdIsAscii(id: string)
    requires IsValidContractId(id)
    ensures IsAscii(id)
  {
    assert id == [id[0]] + id[1..];
  }

  lemma ActionIsAscii(action: YieldAction)
    ensures IsAscii(ActionText(action))
  {
  }

  type ParamMap = map<string, string>

  function BuildYieldAllocationParams(input: YieldInput): Result<ParamMap, ParamsError> {
    var amount := EncodeParamHex(input.amountBaseUnits);
    ActionIsAscii(input.action);
    if amount.Err? then Err(AmountOutOfRange)
    else
      var params := map["action" := BytesToHex(AsciiBytes(ActionText(input.action))), "amount" := amount.value];
      if input.action.Dealloc? then Ok(params)
      else if input.vault.None? || input.vault.value == "" then Err(VaultRequired)
      else if !IsValidContractId(input.vault.value) then Err(InvalidVault)
      else
        ContractIdIsAscii(input.vault.value);
        Ok(params["vault" := BytesToHex(AsciiBytes(input.vault.value))])
  }

  datatype DecodedYield =
    | Yield(action: YieldAction, vault: Option<string>, amountBaseUnits: int)
    | NotYield
    | SyntaxError

  /** `BigInt("0x" + s)`: trailing blanks are dropped, at least one digit must be left. */
  function HexNumber(s: string): Option<nat> {
    var digits := TrimEnd(s);
    if digits == "" || !AllHex(digits) then None else Some(ValueOfHex(digits))
  }

  function ValueOfHex(s: string): nat {
    if s == "" then 0 else 16 * ValueOfHex(s[..|s| - 1]) + HexValue(s[|s| - 1])
  }

  /** The text of bytes as UTF-8, for a decoder that reads ASCII as itself. */
  ghost predicate ReadsAscii(utf8: seq<Byte> -> string) {
    forall s: string | IsAscii(s) :: utf8(AsciiBytes(s)) == s
  }

  function DecodeYieldAllocationParams(params: Option<ParamMap>, utf8: seq<Byte> -> string): DecodedYield {
    if params.None? || !Has(params.value, "action") || !Has(params.value, "amount") then NotYield
    else
      var p := params.value;
      var action := utf8(HexPairs(p["action"]));
      if action != "alloc" && action != "dealloc" then NotYield
      else if |p["amount"]| != 32 then NotYield
      else
        var amount := HexNumber(p["amount"]);
        if amount.None? then SyntaxError
        else Yield(if action == "alloc" then Alloc else Dealloc,
                   if Has(p, "vault") then Some(utf8(HexPairs(p["vault"]))) else None,
                   amount.value)
  }

  /** A parameter that is there and not empty. */
  predicate Has(params: ParamMap, name: string) { name in params && params[name] != "" }

  lemma {:induction false} ValueOfFixedHex(n: nat, m: nat)
    requires n < Pow16(m)
    ensures |FixedHex(n, m)| == m && AllHex(FixedHex(n, m)) && ValueOfHex(FixedHex(n, m)) == n
  {
    if m > 0 {
      ValueOfFixedHex(n / 16, m - 1);
      var head := FixedHex(n / 16, m - 1);
      assert (head + [HexDigit(n % 16)])[..m - 1] == head;
    }
  }

  lemma ParamReadsBack(value: int)
    requires 0 <= value < TWO_128
    ensures var s := EncodeParamHex(value).value; |s| == 32 && HexNumber(s) == Some(value)
  {
    hide HexOf, FixedHex, Pow16, ValueOfHex, PadStart;
    Pow16Of32();
    PaddedHexIsFixed(value, 32);
    ValueOfFixedHex(value, 32);
    var s := FixedHex(value, 32);
    assert s[31] in s;
  }

  /** The map's own keys: the action as text, the amount, and the vault as text exactly to allocate. */
  ghost predicate SaysYield(params: ParamMap, input: YieldInput) {
    && "action" in params && "amount" in params
    && IsAscii(ActionText(input.action))
    && params["action"] == BytesToHex(AsciiBytes(if input.action.Alloc? then "alloc" else "dealloc"))
    && EncodeParamHex(input.amountBaseUnits) == Ok(params["amount"])
    && (if input.action.Alloc? then
          && params.Keys == {"action", "amount", "vault"}
          && input.vault.Some? && IsAscii(input.vault.value)
          && params["vault"] == BytesToHex(AsciiBytes(input.vault.value))
        else params.Keys == {"action", "amount"})
  }

  lemma SaysAction(action: YieldAction)
    ensures ActionText(action) == (if action.Alloc? then "alloc" else "dealloc") && IsAscii(ActionText(action))
  {
  }

  /** What is read as a yield allocation: the two actions, with an amount of sixteen bytes in hex. */
  lemma DecodesExactly(params: ParamMap, utf8: seq<Byte> -> string)
    ensures var d := DecodeYieldAllocationParams(Some(params), utf8);
            var named := Has(params, "action") && Has(params, "amount");
            && DecodeYieldAllocationParams(None, utf8) == NotYield
            && (d != NotYield <==>
                  && named && |params["amount"]| == 32
                  && utf8(HexPairs(params["action"])) in {"alloc", "dealloc"})
            && (d.Yield? ==>
                  && utf8(HexPairs(params["action"])) == (if d.action == Alloc then "alloc" else "dealloc")
                  && HexNumber(params["amount"]) == Some(d.amountBaseUnits)
                  && (d.vault.Some? <==> Has(params, "vault"))
                  && (d.vault.Some? ==> d.vault.value == utf8(HexPairs(params["vault"]))))
            && (d == SyntaxError ==> HexNumber(params["amount"]) == None)
  {
    hide HexPairs, HexNumber;
  }

  /**
   * The builder accepts exactly an amount below 2^128 and, to allocate, a well-formed vault id; what it
   * builds decodes to the same action and amount, with the vault only when allocating.
   */
  lemma YieldParamsReadBack(input: YieldInput, utf8: seq<Byte> -> string)
    requires ReadsAscii(utf8)
    ensures BuildYieldAllocationParams(input).Ok? <==>
            && 0 <= input.amountBaseUnits < TWO_128
            && (input.action.Alloc? ==> input.vault.Some? && IsValidContractId(input.vault.value))
    ensures BuildYieldAllocationParams(input).Ok? ==>
              DecodeYieldAllocationParams(Some(BuildYieldAllocationParams(input).value), utf8) ==
              Yield(input.action, if input.action.Alloc? then input.vault else None, input.amountBaseUnits)
    ensures BuildYieldAllocationParams(input).Ok? ==> SaysYield(BuildYieldAllocationParams(input).value, input)
  {
    SaysAction(input.action);
    hide EncodeParamHex, BytesToHex, HexPairs, HexNumber, AsciiBytes, IsValidContractId, IsAscii;
    var built := BuildYieldAllocationParams(input);
    EncodesWhen(input.amountBaseUnits);
    IdIsNotEmpty(input.vault);
    if built.Ok? {
      var params := built.value;
      ParamReadsBack(input.amountBaseUnits);
      TextReadsBack(ActionText(input.action), utf8);
      ActionIsAscii(input.action);
      if input.action.Alloc? {
        ContractIdIsAscii(input.vault.value);
        TextReadsBack(input.vault.value, utf8);
      }
    }
  }

  lemma EncodesWhen(value: int)
    ensures EncodeParamHex(value).Ok? <==> 0 <= value < TWO_128
  {
  }

  lemma IdIsNotEmpty(vault: Option<string>)
    ensures vault.Some? && IsValidContractId(vault.value) ==> vault.value != ""
  {
  }

  lemma TextReadsBack(s: string, utf8: seq<Byte> -> string)
    requires ReadsAscii(utf8) && IsAscii(s) && s != ""
    ensures BytesToHex(AsciiBytes(s)) != "" && utf8(HexPairs(BytesToHex(AsciiBytes(s)))) == s
  {
    HexPairsOfBytes(AsciiBytes(s));
  }
}
