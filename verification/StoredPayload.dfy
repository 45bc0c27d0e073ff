/** The JSON body of a journal frame: what `serde_json` prints for `StoredPayload`.

    The printer is concrete, because the framing argument depends on which bytes it can emit.
    The parser the journal uses stays a parameter (`serde_json` accepts more than its own output);
    `StrictDecode` below shows the one thing assumed of that parameter can be met. */
module StoredPayload {
  import opened Bytes

  type Hash = h: seq<byte> | |h| == 32 witness seq(32, _ => 0)

  datatype Lease = Lease(pid: u32, created: u64)

  datatype Stored = Stored(sessionHash: Hash, source: Lease, payload: seq<byte>)

  const QUOTE_S: seq<byte> := Ascii("{\"se")

  function Decimal(n: nat): (r: seq<byte>)
    ensures |r| >= 1
    ensures forall i :: 0 <= i < |r| ==> IsDigit(r[i])
  {
    if n < 10 then [48 + n] else Decimal(n / 10) + [48 + n % 10]
  }

  predicate IsDigit(b: byte) { 48 <= b < 58 }

  /** The elements of a JSON array of numbers, comma separated. */
  function NumList(xs: seq<byte>): seq<byte> {
    if |xs| == 0 then []
    else if |xs| == 1 then Decimal(xs[0])
    else Decimal(xs[0]) + Ascii(",") + NumList(xs[1..])
  }

  /** Compact JSON, fields in declaration order. */
  function Encode(s: Stored): seq<byte> {
    Ascii("{\"session_hash\":[") + (NumList(s.sessionHash) + (Ascii("],\"source\":{\"pid\":") + (Decimal(s.source.pid)
      + (Ascii(",\"created\":") + (Decimal(s.source.created) + (Ascii("},\"payload\":[") + (NumList(s.payload) + Ascii("]}"))))))))
  }

  predicate NoH(b: seq<byte>) { forall i :: 0 <= i < |b| ==> b[i] != 0x48 }

  lemma {:induction false} NumListNoH(xs: seq<byte>)
    ensures NoH(NumList(xs))
  {
    if |xs| > 1 { NumListNoH(xs[1..]); }
  }

  lemma NoHConcat(a: seq<byte>, b: seq<byte>)
    requires NoH(a) && NoH(b)
    ensures NoH(a + b)
  {
  }

  /** A body opens with `{"se` and never holds the byte `H`, so the magic `HRHJ` cannot occur in it. */
  lemma BodyBytes(s: Stored)
    ensures |Encode(s)| >= 4 && Encode(s)[..4] == QUOTE_S
    ensures NoH(Encode(s))
  {
    var e7 := NumList(s.payload) + Ascii("]}");
    var e6 := Ascii("},\"payload\":[") + e7;
    var e5 := Decimal(s.source.created) + e6;
    var e4 := Ascii(",\"created\":") + e5;
    var e3 := Decimal(s.source.pid) + e4;
    var e2 := Ascii("],\"source\":{\"pid\":") + e3;
    var e1 := NumList(s.sessionHash) + e2;
    var l0 := Ascii("{\"session_hash\":[");
    NumListNoH(s.payload);
    NumListNoH(s.sessionHash);
    NoHConcat(NumList(s.payload), Ascii("]}"));
    NoHConcat(Ascii("},\"payload\":["), e7);
    NoHConcat(Decimal(s.source.created), e6);
    NoHConcat(Ascii(",\"created\":"), e5);
    NoHConcat(Decimal(s.source.pid), e4);
    NoHConcat(Ascii("],\"source\":{\"pid\":"), e3);
    NoHConcat(NumList(s.sessionHash), e2);
    NoHConcat(l0, e1);
    assert Encode(s) == l0 + e1;
    assert l0[..4] == QUOTE_S;
  }

  // ---- a strict inverse of the printer ----

  /** Value of the leading run of digits (`acc` so far) and what follows it. */
  function TakeDigits(b: seq<byte>, acc: nat): (nat, seq<byte>)
  {
    if |b| > 0 && IsDigit(b[0]) then TakeDigits(b[1..], 10 * acc + (b[0] - 48)) else (acc, b)
  }

  function Pow10(k: nat): nat { if k == 0 then 1 else 10 * Pow10(k - 1) }

  function DigitsValue(d: seq<byte>): int {
    if |d| == 0 then 0 else 10 * DigitsValue(d[..|d| - 1]) + (d[|d| - 1] as int - 48)
  }

  lemma {:induction false} DecimalLen(n: nat, k: nat)
    requires k > 0 && n < Pow10(k)
    ensures |Decimal(n)| <= k
  {
    if n >= 10 { DecimalLen(n / 10, k - 1); }
  }

  lemma {:induction false} NumListLen(xs: seq<byte>)
    ensures |xs| <= |NumList(xs)| <= 4 * |xs|
  {
    if xs != [] {
      DecimalLen(xs[0], 3);
      if |xs| > 1 { NumListLen(xs[1..]); }
    }
  }

  lemma WordLens(pid: u32, created: u64)
    ensures |Decimal(pid)| <= 10 && |Decimal(created)| <= 20
  {
    assert Pow10(5) == 100000 && Pow10(10) == 10000000000;
    assert Pow10(15) == 1000000000000000 && Pow10(20) == 100000000000000000000;
    DecimalLen(pid, 10);
    DecimalLen(created, 20);
  }

  /** A body is about as long as its payload: between one and four bytes for each of the payload's. */
  lemma EncodeLen(s: Stored)
    ensures |s.payload| <= |Encode(s)| <= 4 * |s.payload| + 256
  {
    NumListLen(s.sessionHash);
    NumListLen(s.payload);
    WordLens(s.source.pid, s.source.created);
    hide NumList, Decimal, Ascii;
  }

  lemma {:induction false} DecimalValue(n: nat)
    ensures DigitsValue(Decimal(n)) == n
  {
    if n >= 10 {
      DecimalValue(n / 10);
      assert Decimal(n)[..|Decimal(n)| - 1] == Decimal(n / 10);
    } else {
      assert Decimal(n)[..0] == [];
    }
  }

  lemma {:induction false} TakeDigitsRun(done: seq<byte>, d: seq<byte>, rest: seq<byte>, acc: nat)
    requires forall i :: 0 <= i < |d| ==> IsDigit(d[i])
    requires rest == [] || !IsDigit(rest[0])
    requires acc == DigitsValue(done)
    ensures TakeDigits(d + rest, acc).0 == DigitsValue(done + d) && TakeDigits(d + rest, acc).1 == rest
    decreases |d|
  {
    if |d| == 0 {
      assert d + rest == rest && done + d == done;
    } else {
      var b := d + rest;
      var next := 10 * acc + (d[0] - 48);
      var more := done + [d[0]];
      assert DigitsValue(more) == next by { assert more[..|more| - 1] == done; }
      TakeDigitsRun(more, d[1..], rest, next);
      assert more + d[1..] == done + d;
      assert b[0] == d[0] && b[1..] == d[1..] + rest;
      assert TakeDigits(b, acc) == TakeDigits(b[1..], next);
    }
  }

  /** Reading back a printed number stops exactly where it ended. */
  lemma TakeDecimal(n: nat, rest: seq<byte>)
    requires rest == [] || !IsDigit(rest[0])
    ensures TakeDigits(Decimal(n) + rest, 0).0 == n && TakeDigits(Decimal(n) + rest, 0).1 == rest
  {
    DecimalValue(n);
    TakeDigitsRun([], Decimal(n), rest, 0);
    assert [] + Decimal(n) == Decimal(n);
  }

  lemma {:induction false} TakeDigitsShrinks(b: seq<byte>, acc: nat)
    ensures |TakeDigits(b, acc).1| <= |b|
  {
    if |b| > 0 && IsDigit(b[0]) { TakeDigitsShrinks(b[1..], 10 * acc + (b[0] - 48)); }
  }

  /** Numbers separated by commas, up to the first byte that continues neither. */
  function TakeList(b: seq<byte>): Option<(seq<byte>, seq<byte>)>
    decreases |b|
  {
    if |b| == 0 || !IsDigit(b[0]) then Some(([], b))
    else
      var (value, rest) := TakeDigits(b, 0);
      if value >= 256 then None
      else
      var n: byte := value;
      if |rest| == 0 || rest[0] != 44 then Some(([n], rest))
      else
        TakeDigitsShrinks(b, 0);
        match TakeList(rest[1..])
        case None => None
        case Some((xs, tail)) => Some(([n] + xs, tail))
  }

  lemma {:induction false} TakeNumList(xs: seq<byte>, rest: seq<byte>)
    requires |rest| > 0 && !IsDigit(rest[0]) && rest[0] != 44
    ensures TakeList(NumList(xs) + rest) == Some((xs, rest))
    decreases |xs|
  {
    var b := NumList(xs) + rest;
    if |xs| == 0 {
      assert b == rest;
    } else if |xs| == 1 {
      TakeDecimal(xs[0], rest);
      assert b[0] == Decimal(xs[0])[0];
      assert [xs[0]] == xs;
    } else {
      var tail := NumList(xs[1..]) + rest;
      var comma := Ascii(",");
      assert comma[0] == 44;
      assert b == Decimal(xs[0]) + (comma + tail);
      assert (comma + tail)[0] == 44 && (comma + tail)[1..] == tail;
      TakeDecimal(xs[0], comma + tail);
      TakeNumList(xs[1..], rest);
      assert [xs[0]] + xs[1..] == xs;
    }
  }

  function Expect(lit: seq<byte>, b: seq<byte>): Option<seq<byte>> {
    if lit <= b then Some(b[|lit|..]) else None
  }

  lemma ExpectLit(lit: seq<byte>, rest: seq<byte>)
    ensures Expect(lit, lit + rest) == Some(rest)
  {
    assert (lit + rest)[|lit|..] == rest;
  }

  /** A parser of exactly the printed form. */
  function StrictDecode(b: seq<byte>): Option<Stored> {
    match Expect(Ascii("{\"session_hash\":["), b)
    case None => None
    case Some(b1) =>
    match TakeList(b1)
    case None => None
    case Some((hash, b2)) =>
    match Expect(Ascii("],\"source\":{\"pid\":"), b2)
    case None => None
    case Some(b3) =>
    var (pid, b4) := TakeDigits(b3, 0);
    match Expect(Ascii(",\"created\":"), b4)
    case None => None
    case Some(b5) =>
    var (created, b6) := TakeDigits(b5, 0);
    match Expect(Ascii("},\"payload\":["), b6)
    case None => None
    case Some(b7) =>
    match TakeList(b7)
    case None => None
    case Some((payload, b8)) =>
    if b8 == Ascii("]}") && |hash| == 32 && pid < 0x1_0000_0000 && created < 0x1_0000_0000_0000_0000
    then Some(Stored(hash, Lease(pid, created), payload)) else None
  }

  /** The printer loses nothing: every stored payload is read back from its own bytes. */
  lemma EncodeRoundTrip(s: Stored)
    ensures StrictDecode(Encode(s)) == Some(s)
  {
    var e8 := Ascii("]}");
    var e7 := NumList(s.payload) + e8;
    var l6 := Ascii("},\"payload\":[");
    var e6 := l6 + e7;
    var e5 := Decimal(s.source.created) + e6;
    var l4 := Ascii(",\"created\":");
    var e4 := l4 + e5;
    var e3 := Decimal(s.source.pid) + e4;
    var l2 := Ascii("],\"source\":{\"pid\":");
    var e2 := l2 + e3;
    var e1 := NumList(s.sessionHash) + e2;
    var l0 := Ascii("{\"session_hash\":[");
    assert Encode(s) == l0 + e1;
    ExpectLit(l0, e1);
    assert e2[0] == l2[0] == 93;
    TakeNumList(s.sessionHash, e2);
    ExpectLit(l2, e3);
    assert e4[0] == l4[0] == 44;
    TakeDecimal(s.source.pid, e4);
    ExpectLit(l4, e5);
    assert e6[0] == l6[0] == 125;
    TakeDecimal(s.source.created, e6);
    ExpectLit(l6, e7);
    assert e8[0] == 93;
    TakeNumList(s.payload, e8);
  }
}
