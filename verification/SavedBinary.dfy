/** The saved form of a downloaded rule set: a version, the content, the time of the last
    update, the entity tag and the hash of the address, with lengths as base-128 varints. */
module SavedBinary {
  import opened Wrappers

  newtype byte = b: int | 0 <= b < 256

  datatype Failure = UnexpectedEOF | Overflow | InvalidLength

  // ----- varints

  function Uvarint(n: nat): seq<byte> {
    if n < 128 then [n as byte] else [(n % 128 + 128) as byte] + Uvarint(n / 128)
  }

  const MAX_VARINT: nat := 10

  // Reading on from byte i of a varint: the value of the remaining digits, and what follows.
  function ReadDigits(data: seq<byte>, i: nat): Result<(nat, seq<byte>), Failure>
    requires i <= MAX_VARINT
    decreases data
  {
    if i == MAX_VARINT then Err(Overflow)
    else if data == [] then Err(UnexpectedEOF)
    else if data[0] < 128 then
      if i == MAX_VARINT - 1 && data[0] > 1 then Err(Overflow) else Ok((data[0] as nat, data[1..]))
    else
      match ReadDigits(data[1..], i + 1)
      case Ok((n, rest)) => Ok((data[0] as nat - 128 + 128 * n, rest))
      case Err(e) => Err(e)
  }

  // One more than the largest value that fits from digit i on; from the first it is 2^64.
  function Bound(i: nat): nat
    requires i < MAX_VARINT
    decreases MAX_VARINT - i
  {
    if i == MAX_VARINT - 1 then 2 else 128 * Bound(i + 1)
  }

  lemma WholeBound()
    ensures Bound(0) == 0x1_0000_0000_0000_0000
  {
    assert Bound(7) == 128 * 128 * 2 && Bound(5) == 128 * 128 * Bound(7);
    assert Bound(3) == 128 * 128 * Bound(5) && Bound(1) == 128 * 128 * Bound(3);
  }

  // The 64-bit accumulator never overflows.
  lemma {:induction false} DigitsFit(data: seq<byte>, i: nat)
    requires i < MAX_VARINT
    ensures ReadDigits(data, i).Ok? ==> ReadDigits(data, i).value.0 < Bound(i)
    decreases MAX_VARINT - i
  {
    if data != [] && data[0] >= 128 && i + 1 < MAX_VARINT {
      DigitsFit(data[1..], i + 1);
    } else {
      BoundAtLeast(i);
    }
  }

  lemma {:induction false} BoundAtLeast(i: nat)
    requires i < MAX_VARINT
    ensures Bound(i) >= if i == MAX_VARINT - 1 then 2 else 256
    decreases MAX_VARINT - i
  {
    if i < MAX_VARINT - 1 {
      BoundAtLeast(i + 1);
    }
  }

  lemma NextDigit(n: nat, i: nat)
    requires i < MAX_VARINT && 128 <= n < Bound(i)
    ensures i < MAX_VARINT - 1 && n / 128 < Bound(i + 1) && n % 128 + 128 * (n / 128) == n
  {
  }

  lemma {:induction false} UvarintReadsBack(n: nat, tail: seq<byte>, i: nat)
    requires i < MAX_VARINT && n < Bound(i)
    ensures ReadDigits(Uvarint(n) + tail, i) == Ok((n, tail))
    decreases n
  {
    var data := Uvarint(n) + tail;
    if n < 128 {
      assert data[1..] == tail;
    } else {
      NextDigit(n, i);
      UvarintReadsBack(n / 128, tail, i + 1);
      assert data[1..] == Uvarint(n / 128) + tail;
      assert data[0] as nat - 128 == n % 128;
    }
  }

  // Seven bits to a byte, the lowest first; all but the last byte are marked.
  function SevenBits(bytes: seq<byte>): nat {
    if bytes == [] then 0 else bytes[0] as nat % 128 + 128 * SevenBits(bytes[1..])
  }

  lemma {:induction false} UvarintFormat(n: nat)
    ensures var bytes := Uvarint(n);
            && bytes != [] && SevenBits(bytes) == n
            && (forall i | 0 <= i < |bytes| - 1 :: bytes[i] >= 128)
            && bytes[|bytes| - 1] < 128 && (n > 0 ==> bytes[|bytes| - 1] > 0)
  {
    var bytes := Uvarint(n);
    if n >= 128 {
      UvarintFormat(n / 128);
      assert bytes[1..] == Uvarint(n / 128);
    } else {
      assert bytes[1..] == [];
    }
  }

  lemma {:induction false} UvarintPrefixFails(n: nat, p: seq<byte>, i: nat)
    requires i < MAX_VARINT && n < Bound(i) && p < Uvarint(n)
    ensures ReadDigits(p, i) == Err(UnexpectedEOF)
    decreases n
  {
    if p != [] && n >= 128 {
      NextDigit(n, i);
      assert p[0] == Uvarint(n)[0];
      UvarintPrefixFails(n / 128, p[1..], i + 1);
    }
  }

  // ----- times

  function Pow256(k: nat): nat {
    if k == 0 then 1 else 256 * Pow256(k - 1)
  }

  function BigEndian(n: nat, k: nat): (r: seq<byte>)
    ensures |r| == k
  {
    if k == 0 then [] else BigEndian(n / 256, k - 1) + [(n % 256) as byte]
  }

  function FromBigEndian(bytes: seq<byte>): nat {
    if bytes == [] then 0 else FromBigEndian(bytes[..|bytes| - 1]) * 256 + bytes[|bytes| - 1] as nat
  }

  lemma {:induction false} BigEndianReadsBack(n: nat, k: nat)
    requires n < Pow256(k)
    ensures FromBigEndian(BigEndian(n, k)) == n
  {
    if k > 0 {
      BigEndianReadsBack(n / 256, k - 1);
      assert BigEndian(n, k)[..k - 1] == BigEndian(n / 256, k - 1);
    }
  }

  const TWO63: nat := 0x8000_0000_0000_0000

  // Seconds, as a signed 64-bit number.
  type Seconds = t: int | -0x8000_0000_0000_0000 <= t < 0x8000_0000_0000_0000

  function Time(t: Seconds): seq<byte> {
    BigEndian(if t < 0 then t + 2 * TWO63 else t, 8)
  }

  function FromTime(bytes: seq<byte>): int {
    var n := FromBigEndian(bytes);
    if n < TWO63 then n else n - 2 * TWO63
  }

  lemma WholePower()
    ensures Pow256(8) == 0x1_0000_0000_0000_0000
  {
    assert Pow256(4) == 0x1_0000_0000;
    assert Pow256(6) == 0x1_0000 * Pow256(4);
    assert Pow256(8) == 0x1_0000 * Pow256(6);
  }

  lemma TimeReadsBack(t: Seconds)
    ensures FromTime(Time(t)) == t
  {
    WholePower();
    BigEndianReadsBack(if t < 0 then t + 2 * TWO63 else t, 8);
  }

  function HighFirst(bytes: seq<byte>): nat {
    if bytes == [] then 0 else bytes[0] as nat * Pow256(|bytes| - 1) + HighFirst(bytes[1..])
  }

  lemma Scaled(a: nat, p: nat, h: nat, b: nat)
    ensures a * (256 * p) + (h * 256 + b) == (a * p + h) * 256 + b
  {
  }

  lemma {:induction false} HighFirstNext(bytes: seq<byte>, b: byte)
    ensures HighFirst(bytes + [b]) == HighFirst(bytes) * 256 + b as nat
  {
    if bytes == [] {
      assert [b][1..] == [];
    } else {
      HighFirstNext(bytes[1..], b);
      assert (bytes + [b])[1..] == bytes[1..] + [b];
      Scaled(bytes[0] as nat, Pow256(|bytes| - 1), HighFirst(bytes[1..]), b as nat);
    }
  }

  lemma {:induction false} FromBigEndianIsHighFirst(bytes: seq<byte>)
    ensures FromBigEndian(bytes) == HighFirst(bytes)
  {
    if bytes != [] {
      var front := bytes[..|bytes| - 1];
      FromBigEndianIsHighFirst(front);
      HighFirstNext(front, bytes[|bytes| - 1]);
      assert bytes == front + [bytes[|bytes| - 1]];
    }
  }

  // Eight bytes, the highest first, and negative numbers in two's complement.
  lemma TimeFormat(t: Seconds)
    ensures |Time(t)| == 8 && HighFirst(Time(t)) == if t < 0 then t + 0x1_0000_0000_0000_0000 else t
  {
    WholePower();
    BigEndianReadsBack(if t < 0 then t + 2 * TWO63 else t, 8);
    FromBigEndianIsHighFirst(Time(t));
  }

  lemma {:induction false} FromBigEndianFits(bytes: seq<byte>)
    ensures FromBigEndian(bytes) < Pow256(|bytes|)
  {
    if bytes != [] {
      FromBigEndianFits(bytes[..|bytes| - 1]);
    }
  }

  lemma FromTimeFits(bytes: seq<byte>)
    requires |bytes| == 8
    ensures -0x8000_0000_0000_0000 <= FromTime(bytes) < 0x8000_0000_0000_0000
  {
    WholePower();
    FromBigEndianFits(bytes);
  }

  // ----- the whole

  datatype Saved = Saved(content: seq<byte>, lastUpdated: Seconds, lastEtag: seq<byte>, urlHash: seq<byte>)

  // Lengths are those of slices.
  predicate Storable(v: Saved) {
    |v.content| < TWO63 && |v.lastEtag| < TWO63 && |v.urlHash| < TWO63
  }

  function Field(bytes: seq<byte>): seq<byte> {
    Uvarint(|bytes|) + bytes
  }

  function Marshalled(v: Saved): seq<byte> {
    [2] + Field(v.content) + Time(v.lastUpdated) + Field(v.lastEtag) + Field(v.urlHash)
  }

  function ReadField(data: seq<byte>): Result<(seq<byte>, seq<byte>), Failure> {
    match ReadDigits(data, 0)
    case Err(e) => Err(e)
    case Ok((n, rest)) => if n > |rest| then Err(InvalidLength) else Ok((rest[..n], rest[n..]))
  }

  function ReadTime(data: seq<byte>): Result<(Seconds, seq<byte>), Failure> {
    if |data| < 8 then Err(UnexpectedEOF) else (FromTimeFits(data[..8]); Ok((FromTime(data[..8]), data[8..])))
  }

  /** What the bytes say. Before version 2 there is no hash, and whatever was known of it
      stays. */
  function Unmarshalled(data: seq<byte>, urlHash: seq<byte>): Result<Saved, Failure> {
    if data == [] then Err(UnexpectedEOF)
    else
      match ReadField(data[1..])
      case Err(e) => Err(e)
      case Ok((content, rest)) =>
        match ReadTime(rest)
        case Err(e) => Err(e)
        case Ok((lastUpdated, rest)) =>
          match ReadField(rest)
          case Err(e) => Err(e)
          case Ok((lastEtag, rest)) =>
            if data[0] < 2 then Ok(Saved(content, lastUpdated, lastEtag, urlHash))
            else
              match ReadField(rest)
              case Err(e) => Err(e)
              case Ok((urlHash, _)) => Ok(Saved(content, lastUpdated, lastEtag, urlHash))
  }

  lemma FieldReadsBack(bytes: seq<byte>, tail: seq<byte>)
    requires |bytes| < TWO63
    ensures ReadField(Field(bytes) + tail) == Ok((bytes, tail))
  {
    WholeBound();
    UvarintReadsBack(|bytes|, bytes + tail, 0);
    assert Field(bytes) + tail == Uvarint(|bytes|) + (bytes + tail);
  }

  // A prefix either cuts the field, and is refused, or leaves it whole.
  lemma FieldPrefix(bytes: seq<byte>, tail: seq<byte>, p: seq<byte>)
    requires |bytes| < TWO63 && p <= Field(bytes) + tail
    ensures |p| < |Field(bytes)| ==> ReadField(p) == Err(if |p| < |Uvarint(|bytes|)| then UnexpectedEOF else InvalidLength)
    ensures |p| >= |Field(bytes)| ==> ReadField(p) == Ok((bytes, p[|Field(bytes)|..])) && p[|Field(bytes)|..] <= tail
  {
    WholeBound();
    var length := Uvarint(|bytes|);
    if |p| < |length| {
      assert p < length;
      UvarintPrefixFails(|bytes|, p, 0);
    } else {
      var rest := p[|length|..];
      assert p == length + rest;
      UvarintReadsBack(|bytes|, rest, 0);
      if |p| >= |Field(bytes)| {
        assert rest[..|bytes|] == bytes;
        assert rest[|bytes|..] == p[|Field(bytes)|..];
      }
    }
  }

  /** Saving and loading gives back the same, whatever follows in the data. */
  lemma {:induction false} RoundTrip(v: Saved, tail: seq<byte>, urlHash: seq<byte>)
    requires Storable(v)
    ensures Unmarshalled(Marshalled(v) + tail, urlHash) == Ok(v)
  {
    var rest3 := tail;
    var rest2 := Field(v.urlHash) + rest3;
    var rest1 := Field(v.lastEtag) + rest2;
    var rest0 := Time(v.lastUpdated) + rest1;
    var data := Marshalled(v) + tail;
    assert data[1..] == Field(v.content) + rest0;
    FieldReadsBack(v.content, rest0);
    TimeReadsBack(v.lastUpdated);
    assert rest0[..8] == Time(v.lastUpdated) && rest0[8..] == rest1;
    FieldReadsBack(v.lastEtag, rest2);
    FieldReadsBack(v.urlHash, rest3);
  }

  /** Data saved before version 2 has no hash, and is read back with the hash that was known. */
  lemma {:induction false} OldVersionReadsBack(version: byte, v: Saved, tail: seq<byte>, urlHash: seq<byte>)
    requires Storable(v) && version < 2
    ensures Unmarshalled([version] + Field(v.content) + Time(v.lastUpdated) + Field(v.lastEtag) + tail, urlHash) ==
              Ok(Saved(v.content, v.lastUpdated, v.lastEtag, urlHash))
  {
    var rest1 := Field(v.lastEtag) + tail;
    var rest0 := Time(v.lastUpdated) + rest1;
    var data := [version] + Field(v.content) + Time(v.lastUpdated) + Field(v.lastEtag) + tail;
    assert data[1..] == Field(v.content) + rest0;
    FieldReadsBack(v.content, rest0);
    TimeReadsBack(v.lastUpdated);
    assert rest0[..8] == Time(v.lastUpdated) && rest0[8..] == rest1;
    FieldReadsBack(v.lastEtag, tail);
  }

  lemma PrefixRefused(v: Saved, p: seq<byte>, urlHash: seq<byte>)
    requires Storable(v) && p != [] && p[0] == 2 && p[1..] < Field(v.content) + (Time(v.lastUpdated) + (Field(v.lastEtag) + Field(v.urlHash)))
    ensures Unmarshalled(p, urlHash).Err?
  {
    var rest1 := Field(v.lastEtag) + Field(v.urlHash);
    var rest0 := Time(v.lastUpdated) + rest1;
    FieldPrefix(v.content, rest0, p[1..]);
    if |p[1..]| >= |Field(v.content)| {
      var p0 := p[1..][|Field(v.content)|..];
      if |p0| >= 8 {
        TailRefused(v.lastEtag, v.urlHash, p0[8..]);
      }
    }
  }

  // The two fields after the time, cut short.
  lemma TailRefused(lastEtag: seq<byte>, urlHash: seq<byte>, p: seq<byte>)
    requires |lastEtag| < TWO63 && |urlHash| < TWO63 && p < Field(lastEtag) + Field(urlHash)
    ensures ReadField(p).Ok? ==> ReadField(ReadField(p).value.1).Err?
  {
    FieldPrefix(lastEtag, Field(urlHash), p);
    if |p| >= |Field(lastEtag)| {
      assert Field(urlHash) + [] == Field(urlHash);
      FieldPrefix(urlHash, [], p[|Field(lastEtag)|..]);
    }
  }

  /** A saved value that was cut short anywhere is refused. */
  lemma {:induction false} StrictPrefixIsRefused(v: Saved, p: seq<byte>, urlHash: seq<byte>)
    requires Storable(v) && p < Marshalled(v)
    ensures Unmarshalled(p, urlHash).Err?
  {
    if p != [] {
      assert Marshalled(v)[1..] == Field(v.content) + (Time(v.lastUpdated) + (Field(v.lastEtag) + Field(v.urlHash)));
      assert p[0] == Marshalled(v)[0];
      PrefixRefused(v, p, urlHash);
    }
  }

  // ----- as it is done

  method WriteUvarint(buffer: seq<byte>, n: nat) returns (r: seq<byte>)
    ensures r == buffer + Uvarint(n)
  {
    r := buffer;
    var x := n;
    while x >= 128
      invariant r + Uvarint(x) == buffer + Uvarint(n)
    {
      assert r + Uvarint(x) == r + [(x % 128 + 128) as byte] + Uvarint(x / 128);
      r := r + [(x % 128 + 128) as byte];
      x := x / 128;
    }
    r := r + [x as byte];
  }

  function Times(weight: nat, n: nat): nat {
    weight * n
  }

  lemma TimesDigit(weight: nat, d: nat, n: nat)
    ensures Times(weight, d + 128 * n) == Times(weight, d) + Times(weight * 128, n)
  {
  }

  // The value so far, and what the remaining digits add to it.
  function Accumulated(x: nat, weight: nat, digits: Result<(nat, seq<byte>), Failure>): Result<(nat, seq<byte>), Failure> {
    match digits
    case Ok((n, rest)) => Ok((x + Times(weight, n), rest))
    case Err(e) => Err(e)
  }

  // All of data reads as x and what is still to come, from byte i on.
  predicate ReadsOn(data: seq<byte>, x: nat, weight: nat, i: nat)
    requires i <= |data| && i <= MAX_VARINT
  {
    var on := ReadDigits(data, 0) == Accumulated(x, weight, ReadDigits(data[i..], i));
    on
  }

  lemma ReadsFromStart(data: seq<byte>)
    ensures ReadsOn(data, 0, 1, 0)
  {
    assert data[0..] == data;
  }

  lemma ReadsDigit(data: seq<byte>, x: nat, weight: nat, i: nat)
    requires i < |data| && i < MAX_VARINT && ReadsOn(data, x, weight, i) && data[i] >= 128
    ensures ReadsOn(data, x + Times(weight, data[i] as nat - 128), weight * 128, i + 1)
  {
    assert data[i..][1..] == data[i + 1..];
    if ReadDigits(data[i + 1..], i + 1).Ok? {
      TimesDigit(weight, data[i] as nat - 128, ReadDigits(data[i + 1..], i + 1).value.0);
    }
  }

  lemma ReadsToEnd(data: seq<byte>, x: nat, weight: nat, i: nat)
    requires i <= |data| && i <= MAX_VARINT && ReadsOn(data, x, weight, i)
    ensures i == MAX_VARINT ==> ReadDigits(data, 0) == Err(Overflow)
    ensures i < MAX_VARINT && i == |data| ==> ReadDigits(data, 0) == Err(UnexpectedEOF)
    ensures i < MAX_VARINT && i < |data| && data[i] < 128 ==>
              ReadDigits(data, 0) ==
                if i == MAX_VARINT - 1 && data[i] > 1 then Err(Overflow) else Ok((x + Times(weight, data[i] as nat), data[i + 1..]))
  {
    assert i < |data| ==> data[i..][1..] == data[i + 1..];
  }

  lemma FitsIn64Bits(data: seq<byte>)
    ensures ReadDigits(data, 0).Ok? ==> ReadDigits(data, 0).value.0 < 2 * TWO63
  {
    WholeBound();
    DigitsFit(data, 0);
  }

  method ReadUvarint(data: seq<byte>) returns (r: Result<(nat, seq<byte>), Failure>)
    ensures r == ReadDigits(data, 0)
    ensures r.Ok? ==> r.value.0 < 2 * TWO63
  {
    FitsIn64Bits(data);
    ReadsFromStart(data);
    var x: nat, weight: nat := 0, 1;
    for i := 0 to MAX_VARINT
      invariant i <= |data|
      invariant ReadsOn(data, x, weight, i)
    {
      ReadsToEnd(data, x, weight, i);
      if i == |data| {
        return Err(UnexpectedEOF);
      }
      var b := data[i];
      if b < 128 {
        if i == MAX_VARINT - 1 && b > 1 {
          return Err(Overflow);
        }
        return Ok((x + Times(weight, b as nat), data[i + 1..]));
      }
      ReadsDigit(data, x, weight, i);
      x, weight := x + Times(weight, b as nat - 128), weight * 128;
    }
    ReadsToEnd(data, x, weight, MAX_VARINT);
    return Err(Overflow);
  }

  class SavedBinary {
    var content: seq<byte>
    var lastUpdated: Seconds
    var lastEtag: seq<byte>
    var urlHash: seq<byte>

    function Value(): Saved
      reads this
    {
      Saved(content, lastUpdated, lastEtag, urlHash)
    }

    method MarshalBinary() returns (buffer: seq<byte>)
      ensures buffer == Marshalled(Value())
      ensures buffer == [2] + Uvarint(|content|) + content + Time(lastUpdated) + Uvarint(|lastEtag|) + lastEtag + Uvarint(|urlHash|) + urlHash
    {
      buffer := [2];
      buffer := WriteUvarint(buffer, |content|);
      buffer := buffer + content;
      assert buffer == [2] + Field(content);
      buffer := buffer + Time(lastUpdated);
      buffer := WriteUvarint(buffer, |lastEtag|);
      buffer := buffer + lastEtag;
      assert buffer == [2] + Field(content) + Time(lastUpdated) + Field(lastEtag);
      buffer := WriteUvarint(buffer, |urlHash|);
      buffer := buffer + urlHash;
    }

    // On failure some of the fields may have been set, but not the hash.
    method UnmarshalBinary(data: seq<byte>) returns (failure: Option<Failure>)
      modifies this
      ensures match Unmarshalled(data, old(urlHash))
              case Ok(v) => failure.None? && Value() == v
              case Err(e) => failure == Some(e) && urlHash == old(urlHash)
    {
      if |data| == 0 {
        return Some(UnexpectedEOF);
      }
      var version, reader := data[0], data[1..];
      var contentLength := ReadUvarint(reader);
      if contentLength.Err? {
        return Some(contentLength.error);
      }
      reader := contentLength.value.1;
      if contentLength.value.0 > |reader| {
        return Some(InvalidLength);
      }
      content, reader := reader[..contentLength.value.0], reader[contentLength.value.0..];
      if |reader| < 8 {
        return Some(UnexpectedEOF);
      }
      FromTimeFits(reader[..8]);
      lastUpdated, reader := FromTime(reader[..8]), reader[8..];
      var etagLength := ReadUvarint(reader);
      if etagLength.Err? {
        return Some(etagLength.error);
      }
      reader := etagLength.value.1;
      if etagLength.value.0 > |reader| {
        return Some(InvalidLength);
      }
      lastEtag, reader := reader[..etagLength.value.0], reader[etagLength.value.0..];
      if version < 2 {
        return None;
      }
      var urlHashLength := ReadUvarint(reader);
      if urlHashLength.Err? {
        return Some(urlHashLength.error);
      }
      reader := urlHashLength.value.1;
      if urlHashLength.value.0 > |reader| {
        return Some(InvalidLength);
      }
      urlHash := reader[..urlHashLength.value.0];
      return None;
    }
  }
}
