/**
  The in-memory key service: a length-prefixed byte codec under key rotation.

    uint16(len(version)) version uint16(len(aad)) aad plaintext

  Decrypt computes its slice bounds in uint16 arithmetic, so `2 + len` wraps.
 */
module KmsFake {
  import opened Common

  type Byte = n: int | 0 <= n < 256

  type Bytes = seq<Byte>

  const MAX_UINT16: int := 65_535

  /** The longest field whose end index still fits a uint16. */
  const MAX_INDEXED: int := 65_533

  function PutUint16(n: nat): (b: Bytes)
    requires n <= MAX_UINT16
    ensures |b| == 2 && GetUint16(b) == n
  {
    [n / 256, n % 256]
  }

  function GetUint16(b: Bytes): (n: nat)
    requires |b| >= 2
    ensures n <= MAX_UINT16
  {
    var hi: int, lo: int := b[0], b[1];
    256 * hi + lo
  }

  lemma PutGet(b: Bytes)
    requires |b| == 2
    ensures PutUint16(GetUint16(b)) == b
  {
  }

  function Wrap16(n: nat): nat { n % 65_536 }

  // ---- Version labels -----------------------------------------------------

  function Digits(n: nat): (b: Bytes)
    ensures |b| >= 1
  {
    if n < 10 then [48 + n] else Digits(n / 10) + [48 + n % 10]
  }

  /** strconv.Itoa. */
  function Itoa(v: int): Bytes { if v < 0 then [45] + Digits(-v) else Digits(v) }

  predicate Int64(v: int) { -0x8000_0000_0000_0000 <= v < 0x8000_0000_0000_0000 }

  function Pow10(k: nat): nat { if k == 0 then 1 else 10 * Pow10(k - 1) }

  lemma {:induction false} DigitsLength(n: nat, k: nat)
    requires k >= 1 && n < Pow10(k)
    ensures |Digits(n)| <= k
    decreases k
  {
    if n >= 10 {
      assert Pow10(k) == 10 * Pow10(k - 1) && Pow10(0) == 1;
      DigitsLength(n / 10, k - 1);
    }
  }

  /** A version label is at most a sign and nineteen digits. */
  lemma LabelIsShort(v: int)
    requires Int64(v)
    ensures |Itoa(v)| <= 20
  {
    assert Pow10(19) == 10_000_000_000_000_000_000 by {
      assert Pow10(4) == 10_000;
      assert Pow10(8) == 100_000_000;
      assert Pow10(12) == 1_000_000_000_000;
      assert Pow10(16) == 10_000_000_000_000_000;
    }
    DigitsLength(if v < 0 then -v else v, 19);
  }

  /** The number a run of decimal digits stands for. */
  function NumberOf(b: Bytes): int { if b == [] then 0 else 10 * NumberOf(b[..|b| - 1]) + (b[|b| - 1] as int - 48) }

  lemma {:induction false} DigitsReadBack(n: nat)
    ensures NumberOf(Digits(n)) == n && forall i | 0 <= i < |Digits(n)| :: 48 <= Digits(n)[i] <= 57
    decreases n
  {
    var b := Digits(n);
    if n < 10 {
      assert b[..0] == [];
    } else {
      DigitsReadBack(n / 10);
      assert b[..|b| - 1] == Digits(n / 10);
    }
  }

  /** A label is the version in decimal, with a minus sign in front of a negative one. */
  lemma LabelReadsBack(v: int)
    ensures v >= 0 ==> NumberOf(Itoa(v)) == v && 48 <= Itoa(v)[0] <= 57
    ensures v < 0 ==> Itoa(v)[0] == 45 && NumberOf(Itoa(v)[1..]) == -v
  {
    DigitsReadBack(if v < 0 then -v else v);
  }

  /** Different versions have different labels. */
  lemma LabelsAreDistinct(v: int, w: int)
    requires Itoa(v) == Itoa(w)
    ensures v == w
  {
    LabelReadsBack(v);
    LabelReadsBack(w);
  }

  // ---- The codec ----------------------------------------------------------

  function Encode(version: Bytes, aad: Bytes, plaintext: Bytes): Bytes
    requires |version| <= MAX_UINT16 && |aad| <= MAX_UINT16
  {
    PutUint16(|version|) + version + PutUint16(|aad|) + aad + plaintext
  }

  datatype Decoded =
    | Plain(plaintext: Bytes, version: Bytes)
    | TooShort | TruncatedVersion | TruncatedAad | UnknownVersion | AadMismatch
    | Panic                                       // slice bounds out of range

  /** A length-prefixed field: its bytes and what follows, or the reason there is none. */
  datatype Field = Field(value: Bytes, rest: Bytes) | Truncated | OutOfRange

  /** Reads one field that must leave `spare` bytes behind it. */
  function ReadField(c: Bytes, spare: nat): (f: Field)
    requires |c| >= 2
    ensures f.Field? ==> |f.rest| >= spare
  {
    var n := GetUint16(c[..2]);
    var end := Wrap16(2 + n);
    if n + 2 + spare > |c| then Truncated
    else if end < 2 then OutOfRange
    else Field(c[2..end], c[end..])
  }

  function Decode(known: set<Bytes>, c: Bytes, aad: Bytes): Decoded {
    if |c| < 4 then TooShort
    else match ReadField(c, 2)
      case Truncated => TruncatedVersion
      case OutOfRange => Panic
      case Field(version, rest) =>
        match ReadField(rest, 0)
        case Truncated => TruncatedAad
        case OutOfRange => Panic
        case Field(got, body) =>
          if version !in known then UnknownVersion
          else if got != aad then AadMismatch
          else Plain(body, version)
  }

  lemma ReadFieldOnBytes(c: Bytes, spare: nat)
    requires |c| >= 2
    ensures var n := 256 * (c[0] as int) + c[1] as int;
            ReadField(c, spare) == if |c| < n + 2 + spare then Truncated
                                   else if n > 65_533 then OutOfRange
                                   else Field(c[2..n + 2], c[n + 2..])
  {
  }

  lemma SliceOfTail(c: Bytes, k: nat, i: nat, j: nat)
    requires i <= j && k + j <= |c|
    ensures c[k..][i..j] == c[k + i..k + j] && c[k..][j..] == c[k + j..]
  {
  }

  /** What follows a version of `n` bytes: the associated data, then the plaintext. */
  lemma DecodeSecondField(known: set<Bytes>, c: Bytes, aad: Bytes, n: nat)
    requires |c| >= n + 4 && n <= 65_533 && ReadField(c, 2) == Field(c[2..n + 2], c[n + 2..])
    ensures var m := 256 * (c[n + 2] as int) + c[n + 3] as int;
            Decode(known, c, aad) ==
            if |c| < n + m + 4 then TruncatedAad
            else if m > 65_533 then Panic
            else if c[2..n + 2] !in known then UnknownVersion
            else if c[n + 4..n + m + 4] != aad then AadMismatch
            else Plain(c[n + m + 4..], c[2..n + 2])
  {
    var rest := c[n + 2..];
    ReadFieldOnBytes(rest, 0);
    var m := 256 * (c[n + 2] as int) + c[n + 3] as int;
    if |c| >= n + m + 4 {
      SliceOfTail(c, n + 2, 2, m + 2);
    }
  }

  /** The checks of Decrypt in order, on the bytes themselves. */
  lemma DecodeOnBytes(known: set<Bytes>, c: Bytes, aad: Bytes)
    ensures |c| < 4 ==> Decode(known, c, aad) == TooShort
    ensures |c| >= 4 ==>
              var n := 256 * (c[0] as int) + c[1] as int;
              && (|c| < n + 4 ==> Decode(known, c, aad) == TruncatedVersion)
              && (|c| >= n + 4 && n > 65_533 ==> Decode(known, c, aad) == Panic)
              && (|c| >= n + 4 && n <= 65_533 ==>
                    var m := 256 * (c[n + 2] as int) + c[n + 3] as int;
                    Decode(known, c, aad) ==
                    if |c| < n + m + 4 then TruncatedAad
                    else if m > 65_533 then Panic
                    else if c[2..n + 2] !in known then UnknownVersion
                    else if c[n + 4..n + m + 4] != aad then AadMismatch
                    else Plain(c[n + m + 4..], c[2..n + 2]))
  {
    if |c| >= 4 {
      var n := 256 * (c[0] as int) + c[1] as int;
      ReadFieldOnBytes(c, 2);
      if |c| >= n + 4 && n <= 65_533 {
        DecodeSecondField(known, c, aad, n);
      }
    }
  }

  lemma ReadWritten(field: Bytes, tail: Bytes, spare: nat)
    requires |field| <= MAX_UINT16 && |tail| >= spare
    ensures ReadField(PutUint16(|field|) + field + tail, spare)
            == if |field| <= MAX_INDEXED then Field(field, tail) else OutOfRange
  {
    var c := PutUint16(|field|) + field + tail;
    assert c[..2] == PutUint16(|field|);
    assert c[2..2 + |field|] == field && c[2 + |field|..] == tail;
  }

  /**
    A ciphertext made for a known version decodes to its plaintext exactly when
    the associated data is at most 65533 bytes; two bytes longer is still
    accepted by Encrypt and makes Decrypt panic.
   */
  lemma RoundTripIff(known: set<Bytes>, version: Bytes, aad: Bytes, plaintext: Bytes)
    requires version in known && |version| <= MAX_INDEXED && |aad| <= MAX_UINT16
    ensures Decode(known, Encode(version, aad, plaintext), aad)
            == if |aad| <= MAX_INDEXED then Plain(plaintext, version) else Panic
  {
    var tail := PutUint16(|aad|) + aad + plaintext;
    assert Encode(version, aad, plaintext) == PutUint16(|version|) + version + tail;
    ReadWritten(version, tail, 2);
    ReadWritten(aad, plaintext, 0);
  }

  lemma WrittenIsRead(c: Bytes, spare: nat)
    requires |c| >= 2 && ReadField(c, spare).Field?
    ensures var f := ReadField(c, spare);
            |f.value| <= MAX_INDEXED && |f.rest| >= spare && c == PutUint16(|f.value|) + f.value + f.rest
  {
    var f := ReadField(c, spare);
    PutGet(c[..2]);
    assert c == c[..2] + c[2..2 + |f.value|] + c[2 + |f.value|..];
  }

  /**
    Decrypt accepts nothing but encodings: a plaintext comes out exactly when the
    ciphertext is the encoding of that plaintext, that version and that
    associated data.
   */
  lemma AcceptsOnlyEncodings(known: set<Bytes>, c: Bytes, aad: Bytes, p: Bytes, v: Bytes)
    ensures Decode(known, c, aad) == Plain(p, v) <==>
            v in known && |v| <= MAX_INDEXED && |aad| <= MAX_INDEXED && c == Encode(v, aad, p)
  {
    if Decode(known, c, aad) == Plain(p, v) {
      WrittenIsRead(c, 2);
      var rest := ReadField(c, 2).rest;
      WrittenIsRead(rest, 0);
      assert rest == PutUint16(|aad|) + aad + p;
      assert c == PutUint16(|v|) + v + rest;
      assert c == Encode(v, aad, p);
    }
    if v in known && |v| <= MAX_INDEXED && |aad| <= MAX_INDEXED && c == Encode(v, aad, p) {
      RoundTripIff(known, v, aad, p);
    }
  }

  // ---- The service --------------------------------------------------------

  datatype KeyRing = KeyRing(current: int, known: set<Bytes>)

  /** The current version is one Decrypt knows. */
  predicate ValidRing(k: KeyRing) { Int64(k.current) && Itoa(k.current) in k.known }

  function Rotate(k: KeyRing, v: int): KeyRing { KeyRing(v, k.known + {Itoa(v)}) }

  function RotateAll(k: KeyRing, vs: seq<int>): KeyRing
    decreases |vs|
  {
    if vs == [] then k else RotateAll(Rotate(k, vs[0]), vs[1..])
  }

  lemma {:induction false} RotationKeepsVersions(k: KeyRing, vs: seq<int>)
    ensures k.known <= RotateAll(k, vs).known
    decreases |vs|
  {
    if vs != [] {
      RotationKeepsVersions(Rotate(k, vs[0]), vs[1..]);
    }
  }

  class FakeKms {
    var currentVersion: int
    var knownVersions: set<Bytes>

    ghost function Ring(): KeyRing
      reads this
    {
      KeyRing(currentVersion, knownVersions)
    }

    constructor ()
      ensures Ring() == KeyRing(1, {Itoa(1)}) && ValidRing(Ring())
    {
      currentVersion, knownVersions := 1, {Itoa(1)};
    }

    method RotateToVersion(v: int)
      requires Int64(v)
      modifies this
      ensures Ring() == Rotate(old(Ring()), v) && ValidRing(Ring())
      ensures currentVersion == v && knownVersions == old(knownVersions) + {Itoa(v)}
    {
      currentVersion := v;
      knownVersions := knownVersions + {Itoa(v)};
    }

    /** None when a field is too long for its length prefix. */
    method Encrypt(plaintext: Bytes, aad: Bytes) returns (r: Option<(Bytes, Bytes)>)
      ensures r.Some? <==> |Itoa(currentVersion)| <= MAX_UINT16 && |aad| <= MAX_UINT16
      ensures r.Some? ==> r.value == (Encode(Itoa(currentVersion), aad, plaintext), Itoa(currentVersion))
      // each length in two bytes, high byte first, then the field; the plaintext last
      ensures r.Some? <==> |Itoa(currentVersion)| <= 65_535 && |aad| <= 65_535
      ensures r.Some? ==>
                var v := Itoa(currentVersion);
                r.value.0 == [|v| / 256, |v| % 256] + v + [|aad| / 256, |aad| % 256] + aad + plaintext
    {
      var version := Itoa(currentVersion);
      if |version| > MAX_UINT16 || |aad| > MAX_UINT16 {
        return None;
      }
      var out: Bytes := [];
      out := out + PutUint16(|version|);
      out := out + version;
      out := out + PutUint16(|aad|);
      out := out + aad;
      out := out + plaintext;
      assert out == Encode(version, aad, plaintext);
      r := Some((out, version));
    }

    method Decrypt(c: Bytes, aad: Bytes) returns (r: Decoded)
      ensures r == Decode(knownVersions, c, aad)
    {
      if |c| < 4 {
        return TooShort;
      }
      var vLen := GetUint16(c[..2]);
      if vLen + 4 > |c| {
        return TruncatedVersion;
      }
      var vEnd := Wrap16(2 + vLen);
      if vEnd < 2 {
        return Panic;
      }
      var version, rest := c[2..vEnd], c[vEnd..];
      var aLen := GetUint16(rest[..2]);
      if aLen + 2 > |rest| {
        return TruncatedAad;
      }
      var aEnd := Wrap16(2 + aLen);
      if aEnd < 2 {
        return Panic;
      }
      var got, body := rest[2..aEnd], rest[aEnd..];
      if version !in knownVersions {
        return UnknownVersion;
      }
      if got != aad {
        return AadMismatch;
      }
      r := Plain(body, version);
    }
  }
}
