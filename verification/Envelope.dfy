/**
  Envelope encryption of a row: one data key, wrapped once by the key service,
  seals every field under the same associated data.

  AES-GCM is an ideal seal/open pair; key and nonce randomness are parameters.
 */
module Envelope {
  import opened Common
  import opened KmsFake

  const KEY_LEN: nat := 32
  const UUID_LEN: nat := 36

  datatype Aead = Aead(seal: (Bytes, Bytes, Bytes, Bytes) -> Bytes,       // key, nonce, plaintext, aad
                       open: (Bytes, Bytes, Bytes) -> Option<Bytes>)      // key, ciphertext, aad

  /** Opening undoes sealing under the same key and associated data; a sealed field is never empty. */
  ghost predicate Ideal(a: Aead) {
    forall k: Bytes, n: Bytes, p: Bytes, d: Bytes | |k| == KEY_LEN ::
      a.open(k, a.seal(k, n, p, d), d) == Some(p) && a.seal(k, n, p, d) != []
  }

  function EnvelopeAad(integrationId: Bytes, platform: Bytes): Bytes { integrationId + [124] + platform }

  // ---- Fields of a row ----------------------------------------------------

  /** A nil entry stands for an empty field. */
  type Fields = seq<Option<Bytes>>

  function SealField(a: Aead, key: Bytes, nonce: Bytes, p: Bytes, aad: Bytes): Option<Bytes> {
    if p == [] then None else Some(a.seal(key, nonce, p, aad))
  }

  function SealAll(a: Aead, key: Bytes, nonces: seq<Bytes>, ps: seq<Bytes>, aad: Bytes): (cs: Fields)
    requires |nonces| == |ps|
    ensures |cs| == |ps|
  {
    seq(|ps|, i requires 0 <= i < |ps| => SealField(a, key, nonces[i], ps[i], aad))
  }

  predicate Empty(c: Option<Bytes>) { c.None? || c.value == [] }

  predicate Opens(a: Aead, key: Bytes, c: Option<Bytes>, aad: Bytes) { Empty(c) || a.open(key, c.value, aad).Some? }

  function OpenField(a: Aead, key: Bytes, c: Option<Bytes>, aad: Bytes): Option<Bytes> {
    if Empty(c) then None else a.open(key, c.value, aad)
  }

  /** None when some field does not authenticate. */
  function OpenAll(a: Aead, key: Bytes, cs: Fields, aad: Bytes): Option<Fields> {
    if forall i | 0 <= i < |cs| :: Opens(a, key, cs[i], aad)
    then Some(seq(|cs|, i requires 0 <= i < |cs| => OpenField(a, key, cs[i], aad)))
    else None
  }

  /** What decryption returns for a plaintext: itself, or nil when it is empty. */
  function Returned(ps: seq<Bytes>): Fields {
    seq(|ps|, i requires 0 <= i < |ps| => if ps[i] == [] then None else Some(ps[i]))
  }

  lemma FieldsRoundTrip(a: Aead, key: Bytes, nonces: seq<Bytes>, ps: seq<Bytes>, aad: Bytes)
    requires Ideal(a) && |key| == KEY_LEN && |nonces| == |ps|
    ensures OpenAll(a, key, SealAll(a, key, nonces, ps, aad), aad) == Some(Returned(ps))
  {
    var cs := SealAll(a, key, nonces, ps, aad);
    forall i | 0 <= i < |cs|
      ensures Opens(a, key, cs[i], aad)
      ensures OpenField(a, key, cs[i], aad) == if ps[i] == [] then None else Some(ps[i])
    {
      assert cs[i] == SealField(a, key, nonces[i], ps[i], aad);
      assert a.open(key, a.seal(key, nonces[i], ps[i], aad), aad) == Some(ps[i]);
    }
    assert OpenAll(a, key, cs, aad).value == Returned(ps);
  }

  // ---- Rows ---------------------------------------------------------------

  datatype EncryptError = NoKeyConfigured | WrapFailed | UnmappedVersion

  datatype Encrypted = Row(fields: Fields, wrapped: Option<Bytes>, keyVersion: int, fingerprint: string) | NotEncrypted(error: EncryptError)

  datatype Decrypted = Plaintexts(fields: Fields, keyVersion: int) | UnwrapFailed(why: Decoded) | OpenFailed | Crashed

  type VersionMap = map<Bytes, int>

  /** Encrypting refuses a version it cannot record; decrypting records zero. */
  function ResolveVersion(vm: VersionMap, v: Bytes): int { if v in vm then vm[v] else 0 }

  predicate Resolvable(vm: VersionMap, v: Bytes) { v in vm || v == [] }

  function EncryptRow(a: Aead, ring: KeyRing, vm: VersionMap, fp: string, id: Bytes, platform: Bytes,
                      ps: seq<Bytes>, key: Bytes, nonces: seq<Bytes>): Encrypted
    requires |nonces| == |ps|
  {
    var aad, version := EnvelopeAad(id, platform), Itoa(ring.current);
    if |aad| > MAX_UINT16 || |version| > MAX_UINT16 then NotEncrypted(WrapFailed)
    else if !Resolvable(vm, version) then NotEncrypted(UnmappedVersion)
    else Row(SealAll(a, key, nonces, ps, aad), Some(Encode(version, aad, key)), ResolveVersion(vm, version), fp)
  }

  function DecryptRow(a: Aead, ring: KeyRing, vm: VersionMap, id: Bytes, platform: Bytes,
                      cs: Fields, wrapped: Bytes): Decrypted
  {
    var aad := EnvelopeAad(id, platform);
    match Decode(ring.known, wrapped, aad)
    case Plain(key, version) =>
      (match OpenAll(a, key, cs, aad)
       case None => OpenFailed
       case Some(ps) => Plaintexts(ps, ResolveVersion(vm, version)))
    case Panic => Crashed
    case why => UnwrapFailed(why)
  }

  /**
    A row that was encrypted decrypts, after any rotations, to the same
    plaintexts and the same key version exactly when the platform name is at most
    65496 bytes; the two longer lengths that still encrypt make decryption panic.
   */
  lemma RowSurvivesRotationIff(a: Aead, ring: KeyRing, vs: seq<int>, vm: VersionMap, fp: string,
                               id: Bytes, platform: Bytes, ps: seq<Bytes>, key: Bytes, nonces: seq<Bytes>)
    requires Ideal(a) && ValidRing(ring) && |id| == UUID_LEN && |key| == KEY_LEN && |nonces| == |ps|
    requires EncryptRow(a, ring, vm, fp, id, platform, ps, key, nonces).Row?
    ensures var row := EncryptRow(a, ring, vm, fp, id, platform, ps, key, nonces);
            DecryptRow(a, RotateAll(ring, vs), vm, id, platform, row.fields, row.wrapped.value)
            == if |platform| <= 65_496 then Plaintexts(Returned(ps), row.keyVersion) else Crashed
  {
    var aad, version := EnvelopeAad(id, platform), Itoa(ring.current);
    LabelIsShort(ring.current);
    RotationKeepsVersions(ring, vs);
    RoundTripIff(RotateAll(ring, vs).known, version, aad, key);
    FieldsRoundTrip(a, key, nonces, ps, aad);
  }

  /** A wrapped key is bound to its row: under another integration or platform it does not unwrap. */
  lemma WrappedKeyIsBoundToRow(a: Aead, ring: KeyRing, vs: seq<int>, vm: VersionMap, fp: string,
                               id: Bytes, platform: Bytes, id': Bytes, platform': Bytes,
                               ps: seq<Bytes>, key: Bytes, nonces: seq<Bytes>)
    requires ValidRing(ring) && |id| == UUID_LEN && |id'| == UUID_LEN && |nonces| == |ps|
    requires EncryptRow(a, ring, vm, fp, id, platform, ps, key, nonces).Row?
    requires id != id' || platform != platform'
    ensures var row := EncryptRow(a, ring, vm, fp, id, platform, ps, key, nonces);
            !DecryptRow(a, RotateAll(ring, vs), vm, id', platform', row.fields, row.wrapped.value).Plaintexts?
  {
    var aad, aad', version := EnvelopeAad(id, platform), EnvelopeAad(id', platform'), Itoa(ring.current);
    var known, c := RotateAll(ring, vs).known, Encode(version, aad, key);
    assert aad != aad' by {
      assert aad[..UUID_LEN] == id && aad'[..UUID_LEN] == id';
      assert aad[UUID_LEN + 1..] == platform && aad'[UUID_LEN + 1..] == platform';
    }
    LabelIsShort(ring.current);
    match Decode(known, c, aad') {
      case Plain(p, v) =>
        AcceptsOnlyEncodings(known, c, aad', p, v);
        SameEncoding(version, aad, key, v, aad', p);
        assert false;
      case _ =>
    }
  }

  /** The codec is injective on what Decrypt can read. */
  lemma SameEncoding(v: Bytes, aad: Bytes, p: Bytes, v': Bytes, aad': Bytes, p': Bytes)
    requires |v| <= MAX_INDEXED && |v'| <= MAX_INDEXED && |aad| <= MAX_UINT16 && |aad'| <= MAX_UINT16
    requires Encode(v, aad, p) == Encode(v', aad', p')
    ensures v == v' && aad == aad' && p == p'
  {
    var c := Encode(v, aad, p);
    var rest, rest' := PutUint16(|aad|) + aad + p, PutUint16(|aad'|) + aad' + p';
    assert c == PutUint16(|v|) + v + rest && c == PutUint16(|v'|) + v' + rest';
    ReadWritten(v, rest, 2);
    ReadWritten(v', rest', 2);
    assert rest[..2] == PutUint16(|aad|) && rest'[..2] == PutUint16(|aad'|);
    assert aad == rest[2..2 + |aad|] && aad' == rest'[2..2 + |aad'|];
    assert p == rest[2 + |aad|..] && p' == rest'[2 + |aad'|..];
  }

  // ---- The code -----------------------------------------------------------

  method Wipe(b: array<Byte>)
    modifies b
    ensures forall i | 0 <= i < b.Length :: b[i] == 0
  {
    for i := 0 to b.Length
      invariant forall j | 0 <= j < i :: b[j] == 0
    {
      b[i] := 0;
    }
  }

  class Envelope {
    const kms: FakeKms?
    const legacy: Option<(Bytes, Bytes) -> Bytes>      // nonce, plaintext
    const aead: Aead
    const versionMap: VersionMap
    const fingerprint: string

    constructor (kms: FakeKms?, legacy: Option<(Bytes, Bytes) -> Bytes>, aead: Aead, versionMap: VersionMap, fingerprint: string)
      ensures this.kms == kms && this.legacy == legacy && this.aead == aead
      ensures this.versionMap == versionMap && this.fingerprint == fingerprint
    {
      this.kms, this.legacy, this.aead := kms, legacy, aead;
      this.versionMap, this.fingerprint := versionMap, fingerprint;
    }

    /** `dek` is the freshly filled key buffer; with a key service it is zeroed on every path. */
    method EncryptForRow(id: Bytes, platform: Bytes, ps: seq<Bytes>, dek: array<Byte>, nonces: seq<Bytes>)
      returns (r: Encrypted)
      requires |nonces| == |ps|
      modifies dek
      ensures kms != null ==>
                && r == EncryptRow(aead, kms.Ring(), versionMap, fingerprint, id, platform, ps, old(dek[..]), nonces)
                && forall i | 0 <= i < dek.Length :: dek[i] == 0
      // the whole row, spelled out: what is wrapped, what seals each field, and the version recorded
      ensures kms != null ==>
                var aad, version := id + [124] + platform, Itoa(kms.currentVersion);
                && (r == NotEncrypted(WrapFailed) <==> |aad| > 65_535 || |version| > 65_535)
                && (r == NotEncrypted(UnmappedVersion) <==>
                      |aad| <= 65_535 && |version| <= 65_535 && version !in versionMap)
                && (r.NotEncrypted? ==> r.error != NoKeyConfigured)
                && (r.Row? ==>
                      && r.wrapped == Some(Encode(version, aad, old(dek[..]))) && r.fingerprint == fingerprint
                      && version in versionMap && r.keyVersion == versionMap[version] && |r.fields| == |ps|
                      && forall i | 0 <= i < |ps| ::
                           r.fields[i] == if ps[i] == [] then None else Some(aead.seal(old(dek[..]), nonces[i], ps[i], aad)))
      ensures kms == null && legacy.None? ==> r == NotEncrypted(NoKeyConfigured)
      ensures kms == null && legacy.Some? ==>
                && r.Row? && r.wrapped == None && r.keyVersion == 0 && |r.fields| == |ps|
                && forall i | 0 <= i < |ps| ::
                     r.fields[i] == if ps[i] == [] then None else Some(legacy.value(nonces[i], ps[i]))
    {
      var cts: Fields := [];
      if kms == null {
        if legacy.None? {
          return NotEncrypted(NoKeyConfigured);
        }
        for i := 0 to |ps|
          invariant |cts| == i
          invariant forall j | 0 <= j < i :: cts[j] == if ps[j] == [] then None else Some(legacy.value(nonces[j], ps[j]))
        {
          cts := cts + [if |ps[i]| == 0 then None else Some(legacy.value(nonces[i], ps[i]))];
        }
        return Row(cts, None, 0, "");
      }
      var aad := EnvelopeAad(id, platform);
      var wrapped := kms.Encrypt(dek[..], aad);
      if wrapped.None? {
        Wipe(dek);
        return NotEncrypted(WrapFailed);
      }
      for i := 0 to |ps|
        invariant |cts| == i && dek[..] == old(dek[..])
        invariant forall j | 0 <= j < i :: cts[j] == SealField(aead, dek[..], nonces[j], ps[j], aad)
      {
        cts := cts + [if |ps[i]| == 0 then None else Some(aead.seal(dek[..], nonces[i], ps[i], aad))];
      }
      assert cts == SealAll(aead, dek[..], nonces, ps, aad);
      var version := wrapped.value.1;
      Wipe(dek);
      if version !in versionMap && version != [] {
        return NotEncrypted(UnmappedVersion);
      }
      r := Row(cts, Some(wrapped.value.0), ResolveVersion(versionMap, version), fingerprint);
    }

    /**
      A missing key service is a nil dereference.  `dek` is the buffer the key was
      unwrapped into, if it was; it is zeroed on every path.
     */
    method DecryptForRow(id: Bytes, platform: Bytes, cs: Fields, wrapped: Bytes)
      returns (r: Decrypted, dek: array?<Byte>)
      ensures r == if kms == null then Crashed else DecryptRow(aead, kms.Ring(), versionMap, id, platform, cs, wrapped)
      ensures r.Plaintexts? || r.OpenFailed? ==> dek != null
      // an unwrapped key opens each field under the same associated data; an unmapped version reads as zero
      ensures kms != null ==>
                var aad := id + [124] + platform;
                match Decode(kms.knownVersions, wrapped, aad)
                case Plain(key, version) =>
                  && (r.Plaintexts? || r.OpenFailed?)
                  && (r.OpenFailed? <==> exists i | 0 <= i < |cs| :: !Empty(cs[i]) && aead.open(key, cs[i].value, aad) == None)
                  && (r.Plaintexts? ==>
                        && r.keyVersion == (if version in versionMap then versionMap[version] else 0) && |r.fields| == |cs|
                        && forall i | 0 <= i < |cs| ::
                             r.fields[i] == if cs[i] == None || cs[i] == Some([]) then None else aead.open(key, cs[i].value, aad))
                case Panic => r == Crashed
                case why => r == UnwrapFailed(why)
      ensures kms == null ==> r == Crashed
      ensures dek != null ==> fresh(dek) && forall i | 0 <= i < dek.Length :: dek[i] == 0
    {
      dek := null;
      if kms == null {
        return Crashed, null;
      }
      var aad := EnvelopeAad(id, platform);
      var key := kms.Decrypt(wrapped, aad);
      if key.Panic? {
        return Crashed, null;
      }
      if !key.Plain? {
        return UnwrapFailed(key), null;
      }
      dek := new Byte[|key.plaintext|](i requires 0 <= i < |key.plaintext| => key.plaintext[i]);
      assert dek[..] == key.plaintext;
      var pts: Fields := [];
      for i := 0 to |cs|
        invariant |pts| == i && dek[..] == key.plaintext
        invariant forall j | 0 <= j < i :: Opens(aead, key.plaintext, cs[j], aad) && pts[j] == OpenField(aead, key.plaintext, cs[j], aad)
      {
        if Empty(cs[i]) {
          pts := pts + [None];
          continue;
        }
        var pt := aead.open(dek[..], cs[i].value, aad);
        if pt.None? {
          assert !Opens(aead, key.plaintext, cs[i], aad);
          Wipe(dek);
          return OpenFailed, dek;
        }
        pts := pts + [pt];
      }
      assert pts == OpenAll(aead, key.plaintext, cs, aad).value;
      Wipe(dek);
      r := Plaintexts(pts, ResolveVersion(versionMap, key.version));
    }
  }
}
