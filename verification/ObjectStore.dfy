/**
 The local object store: a cache of object files in front of Git refs. A write renames the
 cache file into place and then creates the ref, and may stop between the two; a read repairs
 a missing cache file from the ref; anybody may delete cache files.
 */
module ObjectStore {
  import opened Text
  import opened Json
  import opened Identity
  import opened Relay
  import Reading

  /** Cache files and ref blobs, by the lower-case hex of the id. */
  datatype TwoTiers<B> = Tiers(cache: map<string, B>, refs: map<string, B>)

  type Tiers = TwoTiers<string>

  datatype Outcome<+T> = Done(value: T) | Failed(error: StoreError)

  datatype StoreError =
    | InvalidId
    | Invalid(codes: seq<Code>)
    | CacheConflict
    | RefConflict
    | NotFound
    | Unparsable
    | RefMismatch(codes: seq<Code>)
    | Stopped

  /** The diagnostics OBJECT001 to OBJECT009, in that order. */
  datatype Code =
    | Missing
    | CacheUnreadable
    | IdNotRequested
    | IdNotRecomputed
    | BodyHashNotRecomputed
    | RefDiffers
    | RefUnreadable
    | SignatureBad
    | AlgorithmUnknown
  {
    predicate IsSignatureWarning() { SignatureBad? || AlgorithmUnknown? }
  }

  datatype WriteStatus = Written | AlreadyExists
  datatype Source = Cache | GitRef
  datatype Found = Found(source: Source, content: CanonicalObject)

  /** Hashing and printing, the JSON reader, and signature checking. */
  datatype Codec = Codec(
    p: Primitives,
    parse: string -> Option<CanonicalObject>,
    check: (string, string, Value, Signature) -> SignatureCheck)
  {
    /** The reader gives well-typed objects and reads back what was printed. */
    ghost predicate Faithful() {
      && (forall x :: parse(x).Some? ==> parse(x).value.Typed())
      && (forall o: CanonicalObject :: o.Typed() ==> parse(ObjectBytes(o, p)) == Some(AsStored(o)))
    }
  }

  /** An object as it comes back: its body in canonical form. */
  function AsStored(o: CanonicalObject): CanonicalObject {
    o.(body := Canonical(o.body))
  }

  /* ----- ids and diagnostics ----- */

  predicate IsHex(c: char) { IsDigit(c) || 'a' <= c <= 'f' || 'A' <= c <= 'F' }

  function LowerHex(c: char): char {
    if 'A' <= c <= 'F' then (c as int + 32) as char else c
  }

  /** `object_hex`: the hex part in lower case. */
  function ObjectHex(id: string): Option<string> {
    if |id| == 71 && id[..7] == "sha256:" && forall i :: 7 <= i < 71 ==> IsHex(id[i])
    then Some(seq(64, i requires 0 <= i < 64 => LowerHex(id[i + 7])))
    else None
  }

  predicate LowerCase(id: string) {
    forall i :: 0 <= i < |id| ==> !('A' <= id[i] <= 'F')
  }

  /** Lower-case ids never share a place in the store. */
  lemma LowerCaseIdsKeepApart(a: string, b: string)
    requires ObjectHex(a).Some? && ObjectHex(a) == ObjectHex(b)
    ensures LowerCase(a) && LowerCase(b) ==> a == b
  {
    if LowerCase(a) && LowerCase(b) {
      var x := ObjectHex(a).value;
      forall i | 0 <= i < 71 ensures a[i] == b[i] {
        if i < 7 { assert a[..7][i] == b[..7][i]; } else { assert x[i - 7] == a[i] && x[i - 7] == b[i]; }
      }
    }
  }

  /**
   A place in the store is the hex part of an id, digit for digit and in lower case; it names
   the id back exactly when that was in lower case.
   */
  lemma ObjectHexMeans(id: string, slot: string)
    requires ObjectHex(id) == Some(slot)
    ensures |slot| == 64 && |id| == 71
    ensures forall i :: 0 <= i < 64 ==> Reading.HexValue(slot[i]).Some? && Reading.HexValue(slot[i]) == Reading.HexValue(id[i + 7])
    ensures LowerCase(slot) && ObjectHex("sha256:" + slot) == Some(slot)
    ensures "sha256:" + slot == id <==> LowerCase(id)
  {
    forall c | IsHex(c) ensures IsHex(LowerHex(c)) && LowerHex(LowerHex(c)) == LowerHex(c) && !('A' <= LowerHex(c) <= 'F')
             && Reading.HexValue(LowerHex(c)).Some? && Reading.HexValue(LowerHex(c)) == Reading.HexValue(c)
             && (LowerHex(c) == c <==> !('A' <= c <= 'F'))
    {
      LowerHexKeeps(c);
    }
    hide IsHex, LowerHex;
    assert forall i :: 7 <= i < 71 ==> IsHex(id[i]) && slot[i - 7] == LowerHex(id[i]);
    forall i | 0 <= i < 64 ensures IsHex(slot[i]) && slot[i] == LowerHex(id[i + 7]) { assert IsHex(id[i + 7]); }
    HexAgain(slot);
    SameId(id, slot);
  }

  lemma LowerHexKeeps(c: char)
    requires IsHex(c)
    ensures var l := LowerHex(c);
            && IsHex(l) && LowerHex(l) == l && !('A' <= l <= 'F')
            && Reading.HexValue(l).Some? && Reading.HexValue(l) == Reading.HexValue(c)
            && (l == c <==> !('A' <= c <= 'F'))
  {}

  lemma HexAgain(slot: string)
    requires |slot| == 64 && forall i :: 0 <= i < 64 ==> IsHex(slot[i]) && LowerHex(slot[i]) == slot[i]
    ensures ObjectHex("sha256:" + slot) == Some(slot)
  {
    hide IsHex, LowerHex;
    var back := "sha256:" + slot;
    assert back[..7] == "sha256:" && forall i :: 7 <= i < 71 ==> back[i] == slot[i - 7];
    assert ObjectHex(back).value == slot;
  }

  lemma SameId(id: string, slot: string)
    requires |id| == 71 && id[..7] == "sha256:" && |slot| == 64
    requires forall i :: 7 <= i < 71 ==> (slot[i - 7] == id[i] <==> !('A' <= id[i] <= 'F'))
    ensures "sha256:" + slot == id <==> LowerCase(id)
  {
    var back := "sha256:" + slot;
    assert forall i :: 0 <= i < 7 ==> id[i] == id[..7][i] && back[i] == id[i];
    assert forall i :: 7 <= i < 71 ==> back[i] == slot[i - 7];
    assert back == id <==> forall i :: 0 <= i < 71 ==> back[i] == id[i];
  }

  function When(c: bool, code: Code): seq<Code> {
    if c then [code] else []
  }

  /** `object_field_diagnostics` */
  function FieldCodes(id: string, o: CanonicalObject, p: Primitives): seq<Code> {
    When(o.objectId != id, IdNotRequested)
    + When(o.objectId != ObjectId(o.kind, o.schemaVersion, o.body, p), IdNotRecomputed)
    + When(o.bodyHash != StableHash(o.body, p), BodyHashNotRecomputed)
  }

  /** The id is the requested one and both hashes recompute. */
  predicate Authentic(id: string, o: CanonicalObject, p: Primitives) {
    && o.objectId == id
    && o.objectId == ObjectId(o.kind, o.schemaVersion, o.body, p)
    && o.bodyHash == StableHash(o.body, p)
  }

  lemma NoFieldCodes(id: string, o: CanonicalObject, p: Primitives)
    ensures FieldCodes(id, o, p) == [] <==> Authentic(id, o, p)
    ensures forall c :: c in FieldCodes(id, o, p) ==> !c.IsSignatureWarning()
  {
    hide ObjectId, StableHash;
  }

  /* ----- the operations on values ----- */

  /** `write_object_cache_bytes` */
  function WriteCache<B(==)>(t: TwoTiers<B>, slot: string, bytes: B): (TwoTiers<B>, Outcome<WriteStatus>) {
    if slot !in t.cache then (t.(cache := t.cache[slot := bytes]), Done(Written))
    else if t.cache[slot] == bytes then (t, Done(AlreadyExists))
    else (t, Failed(CacheConflict))
  }

  /** `write_git_object_ref`: a ref is created once and never moved. */
  function WriteRef<B(==)>(t: TwoTiers<B>, slot: string, bytes: B): (TwoTiers<B>, Outcome<()>) {
    if slot !in t.refs then (t.(refs := t.refs[slot := bytes]), Done(()))
    else if t.refs[slot] == bytes then (t, Done(()))
    else (t, Failed(RefConflict))
  }

  function WriteBoth<B(==)>(t: TwoTiers<B>, slot: string, bytes: B, stop: bool): (TwoTiers<B>, Outcome<WriteStatus>) {
    var (u, status) := WriteCache(t, slot, bytes);
    if status.Failed? then (u, status)
    else if stop then (u, Failed(Stopped))
    else
      var (v, ref) := WriteRef(u, slot, bytes);
      (v, if ref.Failed? then Failed(ref.error) else status)
  }

  function Put(t: Tiers, o: CanonicalObject, stop: bool, codec: Codec): (Tiers, Outcome<WriteStatus>) {
    match ObjectHex(o.objectId)
    case None => (t, Failed(InvalidId))
    case Some(slot) => WriteBoth(t, slot, ObjectBytes(o, codec.p), stop)
  }

  /** `write_canonical_object`; `stop` ends it between the cache rename and the ref creation. */
  function Write(t: Tiers, o: CanonicalObject, stop: bool, codec: Codec): (Tiers, Outcome<WriteStatus>) {
    var codes := FieldCodes(o.objectId, o, codec.p);
    if codes != [] then (t, Failed(Invalid(codes))) else Put(t, o, stop, codec)
  }

  const SCHEMA := "rickydata.git.v1"

  /** `CanonicalObject::new` as `write_cached_object` calls it. */
  function NewObject(kind: string, body: Value, p: Primitives): CanonicalObject {
    var b := Canonical(body);
    CanonicalObject(SCHEMA, kind, ObjectId(kind, SCHEMA, b, p), 0, b, StableHash(b, p), [])
  }

  /** The read of a slot with no cache file. */
  function ReadRef(t: Tiers, id: string, slot: string, codec: Codec): (Tiers, Outcome<Found>) {
    if slot !in t.refs then (t, Failed(NotFound))
    else
      match codec.parse(t.refs[slot])
      case None => (t, Failed(Unparsable))
      case Some(o) =>
        var codes := FieldCodes(id, o, codec.p);
        if codes != [] then (t, Failed(RefMismatch(codes)))
        else (WriteCache(t, slot, t.refs[slot]).0, Done(Found(GitRef, o)))
  }

  /** `read_object_from_cache_or_ref` */
  function ReadSlot(t: Tiers, id: string, slot: string, codec: Codec): (Tiers, Outcome<Found>) {
    if slot in t.cache then
      match codec.parse(t.cache[slot])
      case None => (t, Failed(Unparsable))
      case Some(o) => (t, Done(Found(Cache, o)))
    else ReadRef(t, id, slot, codec)
  }

  /** `read_cached_object` */
  function Read(t: Tiers, id: string, codec: Codec): (Tiers, Outcome<Found>) {
    match ObjectHex(id)
    case None => (t, Failed(InvalidId))
    case Some(slot) => ReadSlot(t, id, slot, codec)
  }

  function Drop(t: Tiers, slot: string): Tiers {
    t.(cache := t.cache - {slot})
  }

  /* ----- verification ----- */

  datatype VerifyReport = VerifyReport(
    source: Source,
    valid: bool,
    codes: seq<Code>,
    computed: Option<(string, string)>,
    signatureCount: nat,
    validSignatures: nat)

  const ED25519 := "ed25519"

  function SignatureCodes(o: CanonicalObject, sigs: seq<Signature>, codec: Codec): seq<Code> {
    if sigs == [] then []
    else
      var s := sigs[|sigs| - 1];
      SignatureCodes(o, sigs[..|sigs| - 1], codec)
      + (if s.algorithm != ED25519 then [AlgorithmUnknown]
         else When(codec.check(o.kind, o.schemaVersion, o.body, s) != Verdict(true), SignatureBad))
  }

  predicate SignatureHolds(o: CanonicalObject, s: Signature, codec: Codec) {
    s.algorithm == ED25519 && codec.check(o.kind, o.schemaVersion, o.body, s) == Verdict(true)
  }

  function ValidSignatures(o: CanonicalObject, sigs: seq<Signature>, codec: Codec): nat {
    if sigs == [] then 0
    else ValidSignatures(o, sigs[..|sigs| - 1], codec) + if SignatureHolds(o, sigs[|sigs| - 1], codec) then 1 else 0
  }

  predicate OnlyWarnings(codes: seq<Code>) {
    forall i :: 0 <= i < |codes| ==> codes[i].IsSignatureWarning()
  }

  function ReportOn(id: string, source: Source, o: CanonicalObject, before: seq<Code>, codec: Codec): VerifyReport {
    var codes := before + FieldCodes(id, o, codec.p) + SignatureCodes(o, o.signatures, codec);
    VerifyReport(source, OnlyWarnings(codes), codes,
                 Some((ObjectId(o.kind, o.schemaVersion, o.body, codec.p), StableHash(o.body, codec.p))),
                 |o.signatures|, ValidSignatures(o, o.signatures, codec))
  }

  function Broken(source: Source, code: Code): VerifyReport {
    VerifyReport(source, false, [code], None, 0, 0)
  }

  /** The diagnostic for a ref that does not hold the canonical bytes of a cached object. */
  function RefCodes(t: Tiers, slot: string, o: CanonicalObject, p: Primitives): seq<Code> {
    When(slot in t.refs && t.refs[slot] != ObjectBytes(o, p), RefDiffers)
  }

  function VerifyCached(t: Tiers, id: string, slot: string, codec: Codec): VerifyReport
    requires slot in t.cache
  {
    match codec.parse(t.cache[slot])
    case None => Broken(Cache, CacheUnreadable)
    case Some(o) => ReportOn(id, Cache, o, RefCodes(t, slot, o, codec.p), codec)
  }

  /** `verify_cached_object`; it repairs a missing cache file like a read. */
  function Verify(t: Tiers, id: string, codec: Codec): (Tiers, Outcome<VerifyReport>) {
    match ObjectHex(id)
    case None => (t, Failed(InvalidId))
    case Some(slot) =>
      if slot in t.cache then (t, Done(VerifyCached(t, id, slot, codec)))
      else
        var (u, r) := ReadSlot(t, id, slot, codec);
        (u, Done(match r
                 case Done(found) => ReportOn(id, found.source, found.content, [], codec)
                 case Failed(NotFound) => Broken(Cache, Missing)
                 case Failed(_) => Broken(GitRef, RefUnreadable)))
  }

  /* ----- the store ----- */

  class RickydataStore {
    var cache: map<string, string>
    var refs: map<string, string>

    constructor ()
      ensures cache == map[] && refs == map[]
    {
      cache, refs := map[], map[];
    }

    function Contents(): Tiers
      reads this
    {
      Tiers(cache, refs)
    }

    method WriteCacheBytes(slot: string, bytes: string) returns (r: Outcome<WriteStatus>)
      modifies `cache
      ensures (Contents(), r) == WriteCache(old(Contents()), slot, bytes)
    {
      if slot in cache {
        if cache[slot] != bytes {
          return Failed(CacheConflict);
        }
        return Done(AlreadyExists);
      }
      cache := cache[slot := bytes];
      r := Done(Written);
    }

    method WriteObjectRef(slot: string, bytes: string) returns (r: Outcome<()>)
      modifies `refs
      ensures (Contents(), r) == WriteRef(old(Contents()), slot, bytes)
    {
      if slot in refs {
        if refs[slot] != bytes {
          return Failed(RefConflict);
        }
        return Done(());
      }
      refs := refs[slot := bytes];
      r := Done(());
    }

    /** The cache file first, then the ref; `stop` ends it between the two. */
    method PutObject(o: CanonicalObject, stop: bool, codec: Codec) returns (r: Outcome<WriteStatus>)
      modifies this
      ensures (Contents(), r) == Put(old(Contents()), o, stop, codec)
    {
      hide ObjectHex, ObjectBytes;
      var bytes := ObjectBytes(o, codec.p);
      var hex := ObjectHex(o.objectId);
      if hex.None? {
        return Failed(InvalidId);
      }
      r := WriteCacheBytes(hex.value, bytes);
      if r.Failed? {
        return;
      }
      if stop {
        return Failed(Stopped);
      }
      var ref := WriteObjectRef(hex.value, bytes);
      if ref.Failed? {
        return Failed(ref.error);
      }
    }

    /** `write_canonical_object` */
    method WriteObject(o: CanonicalObject, stop: bool, codec: Codec) returns (r: Outcome<WriteStatus>)
      modifies this
      ensures (Contents(), r) == Write(old(Contents()), o, stop, codec)
    {
      hide FieldCodes, Put;
      var codes := FieldCodes(o.objectId, o, codec.p);
      if codes != [] {
        return Failed(Invalid(codes));
      }
      r := PutObject(o, stop, codec);
    }

    /** `write_cached_object`: an object made here is not validated, and would always pass. */
    method WriteBody(kind: string, body: Value, stop: bool, codec: Codec) returns (r: Outcome<WriteStatus>)
      modifies this
      ensures (Contents(), r) == Write(old(Contents()), NewObject(kind, body, codec.p), stop, codec)
    {
      hide Put, Canonical, ObjectId, StableHash;
      r := PutObject(NewObject(kind, body, codec.p), stop, codec);
    }

    method ReadFromCacheOrRef(id: string, slot: string, codec: Codec) returns (r: Outcome<Found>)
      modifies `cache
      ensures (Contents(), r) == ReadSlot(old(Contents()), id, slot, codec)
    {
      hide FieldCodes;
      if slot in cache {
        var o := codec.parse(cache[slot]);
        if o.None? {
          return Failed(Unparsable);
        }
        return Done(Found(Cache, o.value));
      }
      if slot !in refs {
        return Failed(NotFound);
      }
      var bytes := refs[slot];
      var o := codec.parse(bytes);
      if o.None? {
        return Failed(Unparsable);
      }
      var codes := FieldCodes(id, o.value, codec.p);
      if codes != [] {
        return Failed(RefMismatch(codes));
      }
      var _ := WriteCacheBytes(slot, bytes);
      r := Done(Found(GitRef, o.value));
    }

    method VerifyObject(id: string, codec: Codec) returns (r: Outcome<VerifyReport>)
      modifies `cache
      ensures (Contents(), r) == Verify(old(Contents()), id, codec)
    {
      hide FieldCodes, ObjectHex, ReportOn, ObjectBytes;
      var hex := ObjectHex(id);
      if hex.None? {
        return Failed(InvalidId);
      }
      var slot := hex.value;
      if slot !in cache {
        var found := ReadFromCacheOrRef(id, slot, codec);
        match found {
          case Done(f) =>
            var report := ReportOnFields(id, f.source, f.content, [], codec);
            return Done(report);
          case Failed(error) =>
            return Done(if error == NotFound then Broken(Cache, Missing) else Broken(GitRef, RefUnreadable));
        }
      }
      var o := codec.parse(cache[slot]);
      if o.None? {
        return Done(Broken(Cache, CacheUnreadable));
      }
      var diagnostics := [];
      if slot in refs && refs[slot] != ObjectBytes(o.value, codec.p) {
        diagnostics := diagnostics + [RefDiffers];
      }
      assert diagnostics == RefCodes(Contents(), slot, o.value, codec.p);
      var report := ReportOnFields(id, Cache, o.value, diagnostics, codec);
      r := Done(report);
    }
  }

  /** `verify_object_fields` with `append_signature_diagnostics`. */
  method ReportOnFields(id: string, source: Source, o: CanonicalObject, before: seq<Code>, codec: Codec) returns (r: VerifyReport)
    ensures r == ReportOn(id, source, o, before, codec)
  {
    hide FieldCodes, ObjectId, StableHash;
    var diagnostics := before + FieldCodes(id, o, codec.p);
    var sigs := o.signatures;
    ghost var fields := diagnostics;
    var count := 0;
    for i := 0 to |sigs|
      invariant diagnostics == fields + SignatureCodes(o, sigs[..i], codec)
      invariant count == ValidSignatures(o, sigs[..i], codec)
    {
      assert sigs[..i + 1][..i] == sigs[..i];
      if sigs[i].algorithm != ED25519 {
        diagnostics := diagnostics + [AlgorithmUnknown];
        continue;
      }
      match codec.check(o.kind, o.schemaVersion, o.body, sigs[i]) {
        case Verdict(true) => count := count + 1;
        case _ => diagnostics := diagnostics + [SignatureBad];
      }
    }
    assert sigs[..|sigs|] == sigs;
    var computed := (ObjectId(o.kind, o.schemaVersion, o.body, codec.p), StableHash(o.body, codec.p));
    r := VerifyReport(source, OnlyWarnings(diagnostics), diagnostics, Some(computed), |sigs|, count);
  }

  /* ----- what every operation keeps ----- */

  datatype Op =
    | WriteOp(o: CanonicalObject, stop: bool)
    | ReadOp(id: string)
    | VerifyOp(id: string)
    | DropOp(slot: string)

  function Step(t: Tiers, op: Op, codec: Codec): Tiers {
    match op
    case WriteOp(o, stop) => Write(t, o, stop, codec).0
    case ReadOp(id) => Read(t, id, codec).0
    case VerifyOp(id) => Verify(t, id, codec).0
    case DropOp(slot) => Drop(t, slot)
  }

  function Run(ops: seq<Op>, codec: Codec): Tiers {
    if ops == [] then Tiers(map[], map[]) else Step(Run(ops[..|ops| - 1], codec), ops[|ops| - 1], codec)
  }

  /** The two tiers never disagree on a slot. */
  ghost predicate Coherent(t: Tiers) {
    forall slot :: slot in t.cache && slot in t.refs ==> t.cache[slot] == t.refs[slot]
  }

  /** An operation that writes these bytes to this slot. */
  predicate WritesTo(op: Op, slot: string, bytes: string, codec: Codec) {
    && op.WriteOp?
    && Authentic(op.o.objectId, op.o, codec.p)
    && ObjectHex(op.o.objectId) == Some(slot)
    && bytes == ObjectBytes(op.o, codec.p)
  }

  lemma WriteIsBoth(t: Tiers, o: CanonicalObject, stop: bool, codec: Codec)
    ensures var slot := ObjectHex(o.objectId);
            Write(t, o, stop, codec).0 ==
              if Authentic(o.objectId, o, codec.p) && slot.Some?
              then WriteBoth(t, slot.value, ObjectBytes(o, codec.p), stop).0 else t
  {
    hide ObjectHex, ObjectBytes, FieldCodes, Authentic, WriteBoth;
    NoFieldCodes(o.objectId, o, codec.p);
  }

  /** The bytes may stand in this tier: nothing else does. */
  predicate Free(tier: map<string, string>, slot: string, bytes: string) {
    slot in tier ==> tier[slot] == bytes
  }

  /**
   A write succeeds exactly for an object whose hashes recompute, under a well-formed id, where
   neither tier holds other bytes, and if nothing stops it; it then leaves its bytes in both tiers
   and nothing else changed. Every way to fail has its own error. Only the last two, which come
   after the cache rename, leave anything behind: the cache file.
   */
  lemma WriteOutcome(t: Tiers, o: CanonicalObject, stop: bool, codec: Codec)
    ensures var (u, r) := Write(t, o, stop, codec);
            var hex, bytes, ok := ObjectHex(o.objectId), ObjectBytes(o, codec.p), Authentic(o.objectId, o, codec.p);
            match hex
            case None =>
              u == t && r.Failed? && (if ok then r.error == InvalidId else r.error.Invalid?)
            case Some(slot) =>
              if ok && Free(t.cache, slot, bytes) && !stop && Free(t.refs, slot, bytes) then
                && u == Tiers(t.cache[slot := bytes], t.refs[slot := bytes])
                && r == Done(if slot in t.cache then AlreadyExists else Written)
              else
                && r.Failed?
                && (r.error.Invalid? <==> !ok)
                && (r.error == CacheConflict <==> ok && !Free(t.cache, slot, bytes))
                && (r.error == Stopped <==> ok && Free(t.cache, slot, bytes) && stop)
                && (r.error == RefConflict <==> ok && Free(t.cache, slot, bytes) && !stop)
                && u == if r.error in {Stopped, RefConflict} then t.(cache := t.cache[slot := bytes]) else t
  {
    hide ObjectHex, ObjectBytes, FieldCodes, Authentic;
    NoFieldCodes(o.objectId, o, codec.p);
    if ObjectHex(o.objectId).Some? { SameEntries(t, ObjectHex(o.objectId).value, ObjectBytes(o, codec.p)); }
  }

  lemma SameEntries(t: Tiers, slot: string, bytes: string)
    ensures slot in t.cache && t.cache[slot] == bytes ==> t.cache[slot := bytes] == t.cache
    ensures slot in t.refs && t.refs[slot] == bytes ==> t.refs[slot := bytes] == t.refs
  {}

  /**
   A read gives back what is in the cache, whatever its hashes, or else what the ref holds, if that
   has the requested id and its hashes recompute; only then does it fill in the cache file.
   */
  lemma ReadOutcome(t: Tiers, id: string, codec: Codec)
    ensures var (u, r) := Read(t, id, codec);
            match ObjectHex(id)
            case None => u == t && r == Failed(InvalidId)
            case Some(slot) =>
              var x := Examined(t, slot, codec);
              if slot in t.cache then u == t && r == (if x.Some? then Done(Found(Cache, x.value)) else Failed(Unparsable))
              else if slot !in t.refs then u == t && r == Failed(NotFound)
              else if x.None? then u == t && r == Failed(Unparsable)
              else if !Authentic(id, x.value, codec.p) then u == t && r.Failed? && r.error.RefMismatch?
              else u == t.(cache := t.cache[slot := t.refs[slot]]) && r == Done(Found(GitRef, x.value))
  {
    hide ObjectHex, FieldCodes, Authentic;
    if ObjectHex(id).Some? {
      var x := Examined(t, ObjectHex(id).value, codec);
      if x.Some? { NoFieldCodes(id, x.value, codec.p); }
    }
  }

  /** A body is written as an object of its own id and hash, of the one schema version, unsigned and in canonical form. */
  lemma NewObjectIs(kind: string, body: Value, p: Primitives)
    requires p.Sound() && WellFormed(body)
    ensures var o := NewObject(kind, body, p);
            && Authentic(ObjectId(kind, "rickydata.git.v1", body, p), o, p)
            && o.kind == kind && o.schemaVersion == "rickydata.git.v1" && o.createdAtMs == 0 && o.signatures == []
            && Equivalent(o.body, body) && InCanonicalForm(o.body)
  {
    hide ObjectId, StableHash, Equivalent, Canonical, InCanonicalForm;
    CanonicalMeans(body);
    ObjectIdDecides(kind, SCHEMA, body, kind, SCHEMA, Canonical(body), p);
  }

  /** Reading or verifying does nothing but fill a missing cache entry from its ref. */
  lemma ReadFills(t: Tiers, id: string, codec: Codec)
    ensures Read(t, id, codec).0 == Verify(t, id, codec).0
    ensures var u := Read(t, id, codec).0;
            u == t || exists slot :: slot !in t.cache && slot in t.refs && u == t.(cache := t.cache[slot := t.refs[slot]])
  {
    hide ObjectHex, FieldCodes, ReportOn, VerifyCached;
  }

  /** The one step that breaks coherence: new bytes for a slot whose cache file was deleted. */
  predicate Diverges(t: Tiers, op: Op, codec: Codec) {
    && op.WriteOp?
    && Authentic(op.o.objectId, op.o, codec.p)
    && var slot := ObjectHex(op.o.objectId);
    && slot.Some?
    && slot.value in t.refs
    && slot.value !in t.cache
    && t.refs[slot.value] != ObjectBytes(op.o, codec.p)
  }

  /** A step from a coherent store keeps it coherent exactly when it is not of that kind. */
  lemma StepCoherent(t: Tiers, op: Op, codec: Codec)
    requires Coherent(t)
    ensures Coherent(Step(t, op, codec)) <==> !Diverges(t, op, codec)
  {
    hide ObjectHex, ObjectBytes, Authentic, Write, Read, Verify;
    match op {
      case WriteOp(o, stop) =>
        WriteIsBoth(t, o, stop, codec);
        if Diverges(t, op, codec) {
          var slot := ObjectHex(o.objectId).value;
          assert Step(t, op, codec).cache[slot] != Step(t, op, codec).refs[slot];
        }
      case ReadOp(id) => ReadFills(t, id, codec);
      case VerifyOp(id) => ReadFills(t, id, codec);
      case DropOp(_) =>
    }
  }

  /** Refs are never changed or removed, whatever happens to the cache. */
  lemma RefsStay(t: Tiers, op: Op, codec: Codec)
    ensures forall slot :: slot in t.refs ==> slot in Step(t, op, codec).refs && Step(t, op, codec).refs[slot] == t.refs[slot]
  {
    hide ObjectHex, ObjectBytes, Authentic, Write, Read, Verify;
    match op {
      case WriteOp(o, stop) => WriteIsBoth(t, o, stop, codec);
      case ReadOp(id) => ReadFills(t, id, codec);
      case VerifyOp(id) => ReadFills(t, id, codec);
      case DropOp(_) =>
    }
  }

  /* ----- every run ----- */

  ghost predicate WrittenBy(ops: seq<Op>, slot: string, bytes: string, codec: Codec) {
    exists i :: 0 <= i < |ops| && WritesTo(ops[i], slot, bytes, codec)
  }

  ghost predicate AllWritten(t: Tiers, ops: seq<Op>, codec: Codec) {
    && (forall slot :: slot in t.cache ==> WrittenBy(ops, slot, t.cache[slot], codec))
    && (forall slot :: slot in t.refs ==> WrittenBy(ops, slot, t.refs[slot], codec))
  }

  lemma WrittenByGrows(ops: seq<Op>, op: Op, slot: string, bytes: string, codec: Codec)
    ensures WrittenBy(ops + [op], slot, bytes, codec) <==> WrittenBy(ops, slot, bytes, codec) || WritesTo(op, slot, bytes, codec)
  {
    hide WritesTo;
    if i :| 0 <= i < |ops| && WritesTo(ops[i], slot, bytes, codec) {
      assert (ops + [op])[i] == ops[i];
    }
    assert (ops + [op])[|ops|] == op;
  }

  lemma StepWritten(t: Tiers, ops: seq<Op>, op: Op, codec: Codec)
    requires AllWritten(t, ops, codec)
    ensures AllWritten(Step(t, op, codec), ops + [op], codec)
  {
    hide ObjectHex, ObjectBytes, Authentic, Write, Read, Verify, WrittenBy;
    forall slot, bytes ensures WrittenBy(ops + [op], slot, bytes, codec)
                       <==> WrittenBy(ops, slot, bytes, codec) || WritesTo(op, slot, bytes, codec)
    {
      WrittenByGrows(ops, op, slot, bytes, codec);
    }
    match op {
      case WriteOp(o, stop) => WriteIsBoth(t, o, stop, codec);
      case ReadOp(id) => ReadFills(t, id, codec);
      case VerifyOp(id) => ReadFills(t, id, codec);
      case DropOp(_) =>
    }
  }

  /** Whatever the run, both tiers hold only bytes that some write brought to that slot. */
  lemma {:induction false} RunWritten(ops: seq<Op>, codec: Codec)
    ensures AllWritten(Run(ops, codec), ops, codec)
  {
    hide Step, WrittenBy;
    if ops != [] {
      var front, op := ops[..|ops| - 1], ops[|ops| - 1];
      RunWritten(front, codec);
      StepWritten(Run(front, codec), front, op, codec);
      assert ops == front + [op];
    }
  }

  /** Writes to one slot always carry the same bytes. */
  ghost predicate SameBytes(ops: seq<Op>, codec: Codec) {
    forall slot, a, b :: WrittenBy(ops, slot, a, codec) && WrittenBy(ops, slot, b, codec) ==> a == b
  }

  ghost predicate NoDrops(ops: seq<Op>) {
    forall i :: 0 <= i < |ops| ==> !ops[i].DropOp?
  }

  /** With no cache file ever deleted, coherence needs no assumption on the writes. */
  lemma {:induction false} WithoutDropsCoherent(ops: seq<Op>, codec: Codec)
    requires NoDrops(ops)
    ensures Coherent(Run(ops, codec)) && Run(ops, codec).refs.Keys <= Run(ops, codec).cache.Keys
  {
    hide ObjectHex, ObjectBytes, Authentic, Write, Read, Verify;
    if ops != [] {
      var front, op := ops[..|ops| - 1], ops[|ops| - 1];
      assert forall i :: 0 <= i < |front| ==> front[i] == ops[i];
      WithoutDropsCoherent(front, codec);
      var t := Run(front, codec);
      StepCoherent(t, op, codec);
      assert !op.DropOp?;
      match op {
        case WriteOp(o, stop) => WriteIsBoth(t, o, stop, codec);
        case ReadOp(id) => ReadFills(t, id, codec);
        case VerifyOp(id) => ReadFills(t, id, codec);
        case DropOp(_) =>
      }
    }
  }

  /* ----- what a read gives back ----- */

  /** The ref of o's id holds o. */
  predicate Backs(t: Tiers, o: CanonicalObject, codec: Codec) {
    && o.Typed()
    && Authentic(o.objectId, o, codec.p)
    && var slot := ObjectHex(o.objectId);
    && slot.Some?
    && slot.value in t.refs
    && t.refs[slot.value] == ObjectBytes(o, codec.p)
  }

  /** Canonicalising the body changes neither hash nor bytes. */
  lemma StoredIsAuthentic(o: CanonicalObject, p: Primitives)
    requires p.Sound() && o.Typed()
    ensures AsStored(o).Typed()
    ensures Authentic(o.objectId, AsStored(o), p) <==> Authentic(o.objectId, o, p)
    ensures ObjectBytes(AsStored(o), p) == ObjectBytes(o, p)
  {
    hide ObjectBytes, ObjectId, StableHash;
    CanonicalMeans(o.body);
    StableHashDecides(o.body, Canonical(o.body), p);
    ObjectIdDecides(o.kind, o.schemaVersion, o.body, o.kind, o.schemaVersion, Canonical(o.body), p);
    ObjectBytesDecide(AsStored(o), o, p);
  }

  /**
   A coherent store reads a ref-backed id as the object its ref holds; only `source` tells
   the tiers apart, and afterwards the cache holds exactly the ref's bytes.
   */
  lemma CoherentRead(t: Tiers, o: CanonicalObject, codec: Codec)
    requires codec.p.Sound() && codec.Faithful() && Coherent(t) && Backs(t, o, codec)
    ensures var slot := ObjectHex(o.objectId).value;
            Read(t, o.objectId, codec) ==
              (t.(cache := t.cache[slot := t.refs[slot]]),
               Done(Found(if slot in t.cache then Cache else GitRef, AsStored(o))))
  {
    hide ObjectHex, ObjectBytes, FieldCodes, Authentic;
    StoredIsAuthentic(o, codec.p);
    NoFieldCodes(o.objectId, AsStored(o), codec.p);
    var slot := ObjectHex(o.objectId).value;
    if slot in t.cache {
      assert t.cache == t.cache[slot := t.refs[slot]];
    }
  }

  /** Deleting a cache file and reading its id puts the store back exactly as it was. */
  lemma ReadRestoresCache(t: Tiers, o: CanonicalObject, codec: Codec)
    requires codec.p.Sound() && codec.Faithful() && Coherent(t) && Backs(t, o, codec)
    requires ObjectHex(o.objectId).value in t.cache
    ensures Read(Drop(t, ObjectHex(o.objectId).value), o.objectId, codec).0 == t
  {
    hide ObjectHex, ObjectBytes, Authentic, Read;
    var slot := ObjectHex(o.objectId).value;
    CoherentRead(Drop(t, slot), o, codec);
    assert (t.cache - {slot})[slot := t.refs[slot]] == t.cache;
  }

  /** Coherence of a run with the same bytes per slot, whatever was written. */
  lemma SameBytesCoherent(ops: seq<Op>, codec: Codec)
    requires SameBytes(ops, codec)
    ensures Coherent(Run(ops, codec))
  {
    hide WrittenBy;
    RunWritten(ops, codec);
  }

  /**
   Over every run of writes (finished or stopped), reads, verifications and cache deletions, in
   which writes to one slot carry the same bytes or no cache file is deleted, every ref holds an
   object that was written; reading its id gives that object, whichever tier answers, and leaves
   the ref's bytes in the cache.
   */
  lemma RunReads(ops: seq<Op>, slot: string, codec: Codec) returns (o: CanonicalObject)
    requires codec.p.Sound() && codec.Faithful()
    requires forall i :: 0 <= i < |ops| && ops[i].WriteOp? ==> ops[i].o.Typed()
    requires SameBytes(ops, codec) || NoDrops(ops)
    requires slot in Run(ops, codec).refs
    ensures exists i :: 0 <= i < |ops| && ops[i].WriteOp? && ops[i].o == o
    ensures var t := Run(ops, codec);
            && Backs(t, o, codec)
            && ObjectHex(o.objectId) == Some(slot)
            && Read(t, o.objectId, codec) ==
                 (t.(cache := t.cache[slot := t.refs[slot]]),
                  Done(Found(if slot in t.cache then Cache else GitRef, AsStored(o))))
  {
    hide ObjectHex, ObjectBytes, Authentic, Read;
    RunWritten(ops, codec);
    var t := Run(ops, codec);
    if SameBytes(ops, codec) { SameBytesCoherent(ops, codec); } else { WithoutDropsCoherent(ops, codec); }
    assert WrittenBy(ops, slot, t.refs[slot], codec);
    var i :| 0 <= i < |ops| && WritesTo(ops[i], slot, t.refs[slot], codec);
    o := ops[i].o;
    CoherentRead(t, o, codec);
  }

  /** A write that succeeded leaves the object's bytes in both tiers. */
  lemma WriteStores(t: Tiers, o: CanonicalObject, stop: bool, codec: Codec)
    requires o.Typed() && Write(t, o, stop, codec).1.Done?
    ensures Backs(Write(t, o, stop, codec).0, o, codec)
  {
    hide ObjectHex, ObjectBytes, FieldCodes, Authentic;
    NoFieldCodes(o.objectId, o, codec.p);
  }

  lemma {:induction false} BacksStays(ops: seq<Op>, m: nat, o: CanonicalObject, codec: Codec)
    requires m <= |ops| && Backs(Run(ops[..m], codec), o, codec)
    ensures Backs(Run(ops, codec), o, codec)
    decreases |ops|
  {
    hide ObjectHex, ObjectBytes, Authentic, Step;
    if m == |ops| {
      assert ops[..m] == ops;
    } else {
      var front := ops[..|ops| - 1];
      assert front[..m] == ops[..m];
      BacksStays(front, m, o, codec);
      RefsStay(Run(front, codec), ops[|ops| - 1], codec);
    }
  }

  /**
   What was written is what is read: in those runs an object whose write succeeded is read back,
   at the end and whatever happened since, as that object with its body in canonical form.
   */
  lemma WrittenIsRead(ops: seq<Op>, k: nat, codec: Codec)
    requires codec.p.Sound() && codec.Faithful() && (SameBytes(ops, codec) || NoDrops(ops))
    requires k < |ops| && ops[k].WriteOp? && ops[k].o.Typed()
    ensures Write(Run(ops[..k], codec), ops[k].o, ops[k].stop, codec).1.Done? ==>
              var r := Read(Run(ops, codec), ops[k].o.objectId, codec).1;
              r.Done? && r.value.content == AsStored(ops[k].o)
  {
    hide ObjectHex, ObjectBytes, Authentic, Read, Write, SameBytes, NoDrops;
    var o := ops[k].o;
    if Write(Run(ops[..k], codec), o, ops[k].stop, codec).1.Done? {
      WriteStores(Run(ops[..k], codec), o, ops[k].stop, codec);
      assert ops[..k + 1][..k] == ops[..k];
      BacksStays(ops, k + 1, o, codec);
      if SameBytes(ops, codec) { SameBytesCoherent(ops, codec); } else { WithoutDropsCoherent(ops, codec); }
      CoherentRead(Run(ops, codec), o, codec);
    }
  }

  /**
   The assumption is needed: write an object, delete its cache file, write the same body with
   other signatures. The second write fails, but the cache now holds its bytes.
   */
  lemma DifferentBytesDiverge(o: CanonicalObject, other: CanonicalObject, codec: Codec)
    requires Authentic(o.objectId, o, codec.p) && Authentic(o.objectId, other, codec.p)
    requires ObjectHex(o.objectId).Some? && ObjectBytes(o, codec.p) != ObjectBytes(other, codec.p)
    ensures var slot := ObjectHex(o.objectId).value;
            var before := Run([WriteOp(o, false), DropOp(slot)], codec);
            && Write(before, other, false, codec).1 == Failed(RefConflict)
            && !Coherent(Write(before, other, false, codec).0)
  {
    hide ObjectHex, ObjectBytes, FieldCodes, ObjectId, StableHash;
    var slot := ObjectHex(o.objectId).value;
    NoFieldCodes(o.objectId, o, codec.p);
    NoFieldCodes(o.objectId, other, codec.p);
    var first, both := [WriteOp(o, false)], [WriteOp(o, false), DropOp(slot)];
    assert first[..0] == [] && both[..1] == first;
    assert Run(first, codec) == Tiers(map[slot := ObjectBytes(o, codec.p)], map[slot := ObjectBytes(o, codec.p)]);
    var before := Run(both, codec);
    assert before == Drop(Run(first, codec), slot);
    assert slot in Write(before, other, false, codec).0.cache;
  }

  /** A stopped write, run again to the end, leaves what one uninterrupted write would. */
  lemma StoppedWriteCompletes(t: Tiers, o: CanonicalObject, codec: Codec)
    ensures Write(Write(t, o, true, codec).0, o, false, codec).0 == Write(t, o, false, codec).0
    ensures Write(Write(t, o, true, codec).0, o, false, codec).1.Done? <==> Write(t, o, false, codec).1.Done?
  {
    hide ObjectHex, ObjectBytes, FieldCodes;
  }

  /* ----- objects written from a body ----- */

  /** Such objects always pass validation, and their id decides their bytes. */
  lemma NewObjectsNeverClash(k1: string, b1: Value, k2: string, b2: Value, p: Primitives)
    requires p.Sound() && WellFormed(b1) && WellFormed(b2)
    ensures var o, q := NewObject(k1, b1, p), NewObject(k2, b2, p);
            && Authentic(o.objectId, o, p) && o.Typed()
            && (o.objectId == q.objectId <==> ObjectBytes(o, p) == ObjectBytes(q, p))
            && (o.objectId == q.objectId <==> k1 == k2 && Equivalent(b1, b2))
  {
    hide ObjectBytes, ObjectId, StableHash, Equivalent, Canonical;
    CanonicalWellFormed(b1);
    CanonicalWellFormed(b2);
    CanonicalIdempotent(b1);
    CanonicalIdempotent(b2);
    CanonicalDecides(b1, b2);
    CanonicalDecides(Canonical(b1), Canonical(b2));
    ObjectIdDecides(k1, SCHEMA, Canonical(b1), k2, SCHEMA, Canonical(b2), p);
    var o, q := NewObject(k1, b1, p), NewObject(k2, b2, p);
    ObjectBytesDecide(o, q, p);
  }

  /** A write, if it is one, of an object made from a body, under a lower-case id. */
  ghost predicate BodyWrite(op: Op, p: Primitives) {
    op.WriteOp? ==>
      LowerCase(op.o.objectId) && exists kind, body :: WellFormed(body) && op.o == NewObject(kind, body, p)
  }

  /** Runs that write only such objects need no assumption: their ids decide the bytes. */
  lemma BodyWritesSameBytes(ops: seq<Op>, codec: Codec)
    requires codec.p.Sound() && forall i :: 0 <= i < |ops| ==> BodyWrite(ops[i], codec.p)
    ensures SameBytes(ops, codec)
  {
    hide ObjectHex, ObjectBytes, NewObject, LowerCase;
    forall slot, a, b | WrittenBy(ops, slot, a, codec) && WrittenBy(ops, slot, b, codec) ensures a == b {
      var i :| 0 <= i < |ops| && WritesTo(ops[i], slot, a, codec);
      var j :| 0 <= j < |ops| && WritesTo(ops[j], slot, b, codec);
      assert BodyWrite(ops[i], codec.p) && BodyWrite(ops[j], codec.p);
      var k1, b1 :| WellFormed(b1) && ops[i].o == NewObject(k1, b1, codec.p);
      var k2, b2 :| WellFormed(b2) && ops[j].o == NewObject(k2, b2, codec.p);
      LowerCaseIdsKeepApart(ops[i].o.objectId, ops[j].o.objectId);
      NewObjectsNeverClash(k1, b1, k2, b2, codec.p);
    }
  }

  /* ----- what a valid report means ----- */

  lemma {:induction false} SignatureCodesWarn(o: CanonicalObject, sigs: seq<Signature>, codec: Codec)
    ensures OnlyWarnings(SignatureCodes(o, sigs, codec))
  {
    if sigs != [] { SignatureCodesWarn(o, sigs[..|sigs| - 1], codec); }
  }

  lemma ReportValid(id: string, source: Source, o: CanonicalObject, before: seq<Code>, codec: Codec)
    ensures ReportOn(id, source, o, before, codec).valid <==> OnlyWarnings(before) && Authentic(id, o, codec.p)
  {
    hide FieldCodes, Authentic, SignatureCodes, ObjectId, StableHash, ValidSignatures;
    SignatureCodesWarn(o, o.signatures, codec);
    NoFieldCodes(id, o, codec.p);
    var f, s := FieldCodes(id, o, codec.p), SignatureCodes(o, o.signatures, codec);
    var codes := before + f + s;
    assert forall i :: 0 <= i < |before| ==> codes[i] == before[i];
    assert forall i :: 0 <= i < |s| ==> codes[|before| + |f| + i] == s[i];
    if f != [] {
      assert codes[|before|] == f[0] && f[0] in f;
    }
  }

  /** The object a verification looks at. */
  function Examined(t: Tiers, slot: string, codec: Codec): Option<CanonicalObject> {
    if slot in t.cache then codec.parse(t.cache[slot])
    else if slot in t.refs then codec.parse(t.refs[slot])
    else None
  }

  ghost predicate ReportsValid(t: Tiers, id: string, codec: Codec) {
    var r := Verify(t, id, codec).1;
    r.Done? && r.value.valid
  }

  /**
   Exactly when a report says `valid`: an object was read, it has the requested id, both its
   hashes recompute, and a cached object has the bytes of its ref. Signatures play no part.
   */
  lemma VerifyMeaning(t: Tiers, id: string, slot: string, codec: Codec)
    requires ObjectHex(id) == Some(slot)
    ensures ReportsValid(t, id, codec) <==>
              && Examined(t, slot, codec).Some?
              && Authentic(id, Examined(t, slot, codec).value, codec.p)
              && (slot in t.cache && slot in t.refs ==> t.refs[slot] == ObjectBytes(Examined(t, slot, codec).value, codec.p))
  {
    hide ObjectHex, FieldCodes, Authentic, ReportOn, ObjectBytes;
    var x := Examined(t, slot, codec);
    if x.Some? {
      ReportValid(id, Cache, x.value, RefCodes(t, slot, x.value, codec.p), codec);
      ReportValid(id, GitRef, x.value, [], codec);
      NoFieldCodes(id, x.value, codec.p);
      if slot in t.refs && t.refs[slot] != ObjectBytes(x.value, codec.p) {
        assert !RefCodes(t, slot, x.value, codec.p)[0].IsSignatureWarning();
      }
    }
  }

  /** The object a verification reports on: what it examined, unless a ref does not hold what was asked for. */
  function Reported(t: Tiers, id: string, slot: string, codec: Codec): Option<CanonicalObject> {
    match Examined(t, slot, codec)
    case None => None
    case Some(o) => if slot in t.cache || Authentic(id, o, codec.p) then Some(o) else None
  }

  lemma VerifyShape(t: Tiers, id: string, slot: string, codec: Codec)
    requires ObjectHex(id) == Some(slot)
    ensures Verify(t, id, codec).1 == Done(
              match Reported(t, id, slot, codec)
              case Some(o) =>
                if slot in t.cache then ReportOn(id, Cache, o, RefCodes(t, slot, o, codec.p), codec)
                else ReportOn(id, GitRef, o, [], codec)
              case None =>
                if slot in t.cache then Broken(Cache, CacheUnreadable)
                else if slot in t.refs then Broken(GitRef, RefUnreadable)
                else Broken(Cache, Missing))
  {
    hide ObjectHex, FieldCodes, Authentic, ReportOn, RefCodes;
    if slot !in t.cache && slot in t.refs {
      var o := codec.parse(t.refs[slot]);
      if o.Some? { NoFieldCodes(id, o.value, codec.p); }
    }
  }

  /** A code other than the warnings is in a report if it came before or is a field's. */
  lemma ReportCodes(id: string, source: Source, o: CanonicalObject, before: seq<Code>, codec: Codec, c: Code)
    requires !c.IsSignatureWarning()
    ensures c in ReportOn(id, source, o, before, codec).codes <==>
              || c in before
              || (c == IdNotRequested && o.objectId != id)
              || (c == IdNotRecomputed && o.objectId != ObjectId(o.kind, o.schemaVersion, o.body, codec.p))
              || (c == BodyHashNotRecomputed && o.bodyHash != StableHash(o.body, codec.p))
  {
    hide ObjectId, StableHash, SignatureCodes, ValidSignatures;
    SignatureCodesWarn(o, o.signatures, codec);
    var s := SignatureCodes(o, o.signatures, codec);
    assert forall d :: d in s ==> d.IsSignatureWarning();
  }

  /**
   What each diagnostic says, whatever the store holds: a code of the first seven is in the
   report exactly in its own case.
   */
  lemma DiagnosticsMean(t: Tiers, id: string, slot: string, codec: Codec)
    requires ObjectHex(id) == Some(slot)
    ensures Verify(t, id, codec).1.Done?
    ensures var r, x := Verify(t, id, codec).1.value, Examined(t, slot, codec);
            && (Missing in r.codes <==> slot !in t.cache && slot !in t.refs)
            && (CacheUnreadable in r.codes <==> slot in t.cache && x.None?)
            && (RefUnreadable in r.codes <==> slot !in t.cache && slot in t.refs && (x.None? || !Authentic(id, x.value, codec.p)))
            && (IdNotRequested in r.codes <==> slot in t.cache && x.Some? && x.value.objectId != id)
            && (IdNotRecomputed in r.codes <==>
                  slot in t.cache && x.Some? && x.value.objectId != ObjectId(x.value.kind, x.value.schemaVersion, x.value.body, codec.p))
            && (BodyHashNotRecomputed in r.codes <==> slot in t.cache && x.Some? && x.value.bodyHash != StableHash(x.value.body, codec.p))
            && (RefDiffers in r.codes <==> slot in t.cache && x.Some? && slot in t.refs && t.refs[slot] != ObjectBytes(x.value, codec.p))
            && r.source == (if slot in t.refs && slot !in t.cache then GitRef else Cache)
  {
    hide ObjectHex, ObjectId, StableHash, ObjectBytes, Verify, ReportOn;
    VerifyShape(t, id, slot, codec);
    var x := Reported(t, id, slot, codec);
    if x.Some? {
      var source := if slot in t.cache then Cache else GitRef;
      var before := if slot in t.cache then RefCodes(t, slot, x.value, codec.p) else [];
      ReportSource(id, source, x.value, before, codec);
      ReportCodes(id, source, x.value, before, codec, Missing);
      ReportCodes(id, source, x.value, before, codec, CacheUnreadable);
      ReportCodes(id, source, x.value, before, codec, RefUnreadable);
      ReportCodes(id, source, x.value, before, codec, IdNotRequested);
      ReportCodes(id, source, x.value, before, codec, IdNotRecomputed);
      ReportCodes(id, source, x.value, before, codec, BodyHashNotRecomputed);
      ReportCodes(id, source, x.value, before, codec, RefDiffers);
    }
  }

  lemma ReportSource(id: string, source: Source, o: CanonicalObject, before: seq<Code>, codec: Codec)
    ensures ReportOn(id, source, o, before, codec).source == source
  {}

  /** The places of the signatures of another algorithm, of those that fail their check, and of those that hold. */
  function Unknown(o: CanonicalObject): set<nat> {
    set i: nat | i < |o.signatures| && o.signatures[i].algorithm != "ed25519"
  }

  function Failing(o: CanonicalObject, codec: Codec): set<nat> {
    set i: nat | i < |o.signatures| && o.signatures[i].algorithm == "ed25519"
                 && codec.check(o.kind, o.schemaVersion, o.body, o.signatures[i]) != Verdict(true)
  }

  function Holding(o: CanonicalObject, codec: Codec): set<nat> {
    set i: nat | i < |o.signatures| && o.signatures[i].algorithm == "ed25519"
                 && codec.check(o.kind, o.schemaVersion, o.body, o.signatures[i]) == Verdict(true)
  }

  /** With one more signature, its place joins the set it belongs to. */
  lemma OneMoreSignature(o: CanonicalObject, codec: Codec)
    requires o.signatures != []
    ensures var n := |o.signatures| - 1;
            var s, front := o.signatures[n], o.(signatures := o.signatures[..n]);
            var unknown, ok := s.algorithm != "ed25519", codec.check(o.kind, o.schemaVersion, o.body, s) == Verdict(true);
            && n !in Unknown(front) && n !in Failing(front, codec) && n !in Holding(front, codec)
            && Unknown(o) == Unknown(front) + (if unknown then {n} else {})
            && Failing(o, codec) == Failing(front, codec) + (if !unknown && !ok then {n} else {})
            && Holding(o, codec) == Holding(front, codec) + (if !unknown && ok then {n} else {})
  {}

  /** The codes and the count with one more signature. */
  lemma OneMoreCode(o: CanonicalObject, codec: Codec)
    requires o.signatures != []
    ensures var n := |o.signatures| - 1;
            var s, front := o.signatures[n], o.(signatures := o.signatures[..n]);
            var unknown, ok := s.algorithm != "ed25519", codec.check(o.kind, o.schemaVersion, o.body, s) == Verdict(true);
            var a, b := multiset(SignatureCodes(front, front.signatures, codec)), multiset(SignatureCodes(o, o.signatures, codec));
            && b[AlgorithmUnknown] == a[AlgorithmUnknown] + (if unknown then 1 else 0)
            && b[SignatureBad] == a[SignatureBad] + (if !unknown && !ok then 1 else 0)
            && ValidSignatures(o, o.signatures, codec) == ValidSignatures(front, front.signatures, codec) + (if !unknown && ok then 1 else 0)
  {
    var n := |o.signatures| - 1;
    SameSignatures(o.(signatures := o.signatures[..n]), o, o.signatures[..n], codec);
    hide OnlyWarnings;
  }

  lemma {:induction false} SignatureCounts(o: CanonicalObject, codec: Codec)
    ensures var codes := SignatureCodes(o, o.signatures, codec);
            && multiset(codes)[AlgorithmUnknown] == |Unknown(o)|
            && multiset(codes)[SignatureBad] == |Failing(o, codec)|
            && ValidSignatures(o, o.signatures, codec) == |Holding(o, codec)|
            && |Unknown(o)| + |Failing(o, codec)| + |Holding(o, codec)| == |o.signatures|
    decreases |o.signatures|
  {
    NoSignatures(o, codec);
    hide Unknown, Failing, Holding, SignatureCodes, ValidSignatures;
    if o.signatures != [] {
      SignatureCounts(o.(signatures := o.signatures[..|o.signatures| - 1]), codec);
      OneMoreCode(o, codec);
      OneMoreSignature(o, codec);
    }
  }

  lemma NoSignatures(o: CanonicalObject, codec: Codec)
    ensures o.signatures == [] ==>
              && Unknown(o) == {} && Failing(o, codec) == {} && Holding(o, codec) == {}
              && SignatureCodes(o, o.signatures, codec) == [] && ValidSignatures(o, o.signatures, codec) == 0
  {}

  /** Only kind, schema version and body enter into the check of a signature. */
  lemma {:induction false} SameSignatures(a: CanonicalObject, b: CanonicalObject, sigs: seq<Signature>, codec: Codec)
    requires a.kind == b.kind && a.schemaVersion == b.schemaVersion && a.body == b.body
    ensures SignatureCodes(a, sigs, codec) == SignatureCodes(b, sigs, codec)
    ensures ValidSignatures(a, sigs, codec) == ValidSignatures(b, sigs, codec)
  {
    if sigs != [] { SameSignatures(a, b, sigs[..|sigs| - 1], codec); }
  }

  /**
   Which signatures a verification flags and counts: a warning for each of another algorithm, one
   for each that does not check, and a count of the rest; with no object to report on, none.
   */
  lemma VerifyCountsSignatures(t: Tiers, id: string, slot: string, codec: Codec)
    requires ObjectHex(id) == Some(slot)
    ensures Verify(t, id, codec).1.Done?
    ensures var r := Verify(t, id, codec).1.value;
            var unknown, bad := multiset(r.codes)[AlgorithmUnknown], multiset(r.codes)[SignatureBad];
            && unknown + bad + r.validSignatures == r.signatureCount
            && match Reported(t, id, slot, codec)
               case Some(o) =>
                 && unknown == |Unknown(o)| && bad == |Failing(o, codec)| && r.validSignatures == |Holding(o, codec)|
                 && r.signatureCount == |o.signatures|
                 && r.computed == Some((ObjectId(o.kind, o.schemaVersion, o.body, codec.p), StableHash(o.body, codec.p)))
               case None => r.signatureCount == 0 && r.computed == None
  {
    hide ObjectHex, ObjectId, StableHash, Verify, SignatureCodes, ValidSignatures, RefCodes, FieldCodes, Unknown, Failing, Holding;
    VerifyShape(t, id, slot, codec);
    var x := Reported(t, id, slot, codec);
    if x.Some? {
      SignatureCounts(x.value, codec);
      NoFieldCodes(id, x.value, codec.p);
      NoRefWarning(t, slot, x.value, codec.p);
      var sigs := SignatureCodes(x.value, x.value.signatures, codec);
      NoWarnings([], FieldCodes(id, x.value, codec.p), sigs);
      NoWarnings(RefCodes(t, slot, x.value, codec.p), FieldCodes(id, x.value, codec.p), sigs);
    }
  }

  lemma NoRefWarning(t: Tiers, slot: string, o: CanonicalObject, p: Primitives)
    ensures forall c :: c in RefCodes(t, slot, o, p) ==> !c.IsSignatureWarning()
  {
    hide ObjectBytes;
  }

  lemma NoWarnings(a: seq<Code>, b: seq<Code>, sigs: seq<Code>)
    requires forall c :: c in a || c in b ==> !c.IsSignatureWarning()
    ensures multiset(a + b + sigs)[AlgorithmUnknown] == multiset(sigs)[AlgorithmUnknown]
    ensures multiset(a + b + sigs)[SignatureBad] == multiset(sigs)[SignatureBad]
  {
    assert multiset(a + b + sigs) == multiset(a) + multiset(b) + multiset(sigs);
    assert AlgorithmUnknown !in a && AlgorithmUnknown !in b && SignatureBad !in a && SignatureBad !in b;
  }

  /** No verdict on any signature changes `valid`. */
  lemma SignaturesNeverDecide(t: Tiers, id: string, codec: Codec, check: (string, string, Value, Signature) -> SignatureCheck)
    ensures ReportsValid(t, id, codec) == ReportsValid(t, id, codec.(check := check))
  {
    hide FieldCodes, ObjectHex, Verify, ReportsValid, Authentic, ObjectBytes;
    if ObjectHex(id).Some? {
      VerifyMeaning(t, id, ObjectHex(id).value, codec);
      VerifyMeaning(t, id, ObjectHex(id).value, codec.(check := check));
    } else {
      InvalidIdNeverValid(t, id, codec);
      InvalidIdNeverValid(t, id, codec.(check := check));
    }
  }

  lemma InvalidIdNeverValid(t: Tiers, id: string, codec: Codec)
    requires ObjectHex(id).None?
    ensures !ReportsValid(t, id, codec)
  {}

  /** Both were read, and they have the same kind, schema version, body hash and canonical body. */
  predicate SameContent(a: Option<CanonicalObject>, b: Option<CanonicalObject>) {
    && a.Some? && b.Some?
    && a.value.kind == b.value.kind && a.value.schemaVersion == b.value.schemaVersion
    && a.value.bodyHash == b.value.bodyHash && Canonical(a.value.body) == Canonical(b.value.body)
  }

  /** Two clones that report one id valid hold the same kind, schema version and body. */
  lemma ValidClonesAgree(t: Tiers, u: Tiers, id: string, slot: string, codec: Codec)
    requires codec.p.Sound() && codec.Faithful() && ObjectHex(id) == Some(slot)
    ensures ReportsValid(t, id, codec) && ReportsValid(u, id, codec) ==> SameContent(Examined(t, slot, codec), Examined(u, slot, codec))
  {
    hide ObjectHex, Verify, ReportsValid, ObjectBytes, ObjectId, StableHash, Equivalent, Canonical;
    VerifyMeaning(t, id, slot, codec);
    VerifyMeaning(u, id, slot, codec);
    if ReportsValid(t, id, codec) && ReportsValid(u, id, codec) {
      var a, b := Examined(t, slot, codec).value, Examined(u, slot, codec).value;
      ObjectIdDecides(a.kind, a.schemaVersion, a.body, b.kind, b.schemaVersion, b.body, codec.p);
      StableHashDecides(a.body, b.body, codec.p);
      CanonicalDecides(a.body, b.body);
    }
  }

  /** A ref-backed object is reported valid exactly when its cache file, if any, agrees with the ref. */
  lemma VerifierFindsDivergence(t: Tiers, o: CanonicalObject, cached: CanonicalObject, codec: Codec)
    requires codec.p.Sound() && codec.Faithful() && Backs(t, o, codec)
    requires ObjectHex(o.objectId).value in t.cache ==>
               && cached.Typed() && Authentic(o.objectId, cached, codec.p)
               && t.cache[ObjectHex(o.objectId).value] == ObjectBytes(cached, codec.p)
    ensures var slot := ObjectHex(o.objectId).value;
            ReportsValid(t, o.objectId, codec) <==> (slot in t.cache ==> t.cache[slot] == t.refs[slot])
  {
    hide ObjectHex, Verify, ReportsValid, ObjectBytes, Authentic;
    var slot := ObjectHex(o.objectId).value;
    VerifyMeaning(t, o.objectId, slot, codec);
    if slot in t.cache { StoredIsAuthentic(cached, codec.p); }
    StoredIsAuthentic(o, codec.p);
  }

  /* ----- a reader of this kind exists ----- */

  ghost predicate Prints(o: CanonicalObject, x: string, p: Primitives) {
    o.Typed() && ObjectBytes(o, p) == x
  }

  ghost function ReadBack(x: string, p: Primitives): Option<CanonicalObject> {
    if exists o :: Prints(o, x, p) then
      var o :| Prints(o, x, p);
      Some(AsStored(o))
    else None
  }

  lemma SameObjectStored(o: CanonicalObject, q: CanonicalObject)
    requires SameObject(o, q) && Canonical(o.body) == Canonical(q.body)
    ensures AsStored(o) == AsStored(q)
  {
    hide Canonical;
    var a, b := o.(body := Null), q.(body := Null);
    assert AsStored(o) == a.(body := Canonical(o.body)) && AsStored(q) == b.(body := Canonical(q.body));
  }

  /** Canonical bytes can be read back: nothing the printer writes is ambiguous. */
  lemma FaithfulCodecExists(p: Primitives, check: (string, string, Value, Signature) -> SignatureCheck) returns (codec: Codec)
    requires p.Sound()
    ensures codec.p == p && codec.check == check && codec.Faithful()
  {
    hide ObjectBytes;
    codec := Codec(p, x => ReadBack(x, p), check);
    forall o: CanonicalObject | o.Typed() ensures codec.parse(ObjectBytes(o, p)) == Some(AsStored(o)) {
      assert Prints(o, ObjectBytes(o, p), p);
      var q :| Prints(q, ObjectBytes(o, p), p) && ReadBack(ObjectBytes(o, p), p) == Some(AsStored(q));
      ObjectBytesDecide(o, q, p);
      CanonicalDecides(o.body, q.body);
      SameObjectStored(o, q);
    }
    forall x | codec.parse(x).Some? ensures codec.parse(x).value.Typed() {
      var o :| Prints(o, x, p) && ReadBack(x, p) == Some(AsStored(o));
      CanonicalWellFormed(o.body);
    }
  }
}
