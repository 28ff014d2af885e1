/**
 Patch evidence. `patch prepare` keeps the raw diff of an attempt's worktree as a hex string
 inside an object; `patch export`, `apply` and `checkout` get the bytes back from it, on any
 clone and without the worktree.
 */
module Patches {
  import opened Text
  import opened Json
  import opened Printing
  import opened Reading
  import opened Identity
  import Store = ObjectStore

  type Byte = x: nat | x < 256

  /* ----- hex ----- */

  /** `u8::from_str_radix(pair, 16)`: a leading plus sign is read as well. */
  function PairValue(a: char, b: char): Option<Byte> {
    match (HexValue(a), HexValue(b))
    case (Some(x), Some(y)) => if x < 16 && y < 16 then Some(16 * x + y) else None
    case (None, Some(y)) => if a == '+' && y < 16 then Some(y) else None
    case _ => None
  }

  function Encode(bytes: seq<Byte>): string {
    if bytes == [] then ""
    else Encode(bytes[..|bytes| - 1]) + [HexDigit(bytes[|bytes| - 1] / 16), HexDigit(bytes[|bytes| - 1] % 16)]
  }

  function Decode(s: string): Option<seq<Byte>> {
    if s == "" then Some([])
    else if |s| == 1 then None
    else
      match (Decode(s[..|s| - 2]), PairValue(s[|s| - 2], s[|s| - 1]))
      case (Some(front), Some(x)) => Some(front + [x])
      case _ => None
  }

  /** `encode_hex` */
  method EncodeHex(bytes: seq<Byte>) returns (encoded: string)
    ensures encoded == Encode(bytes)
  {
    encoded := "";
    for i := 0 to |bytes|
      invariant encoded == Encode(bytes[..i])
    {
      assert bytes[..i + 1][..i] == bytes[..i];
      encoded := encoded + [HexDigit(bytes[i] / 16)];
      encoded := encoded + [HexDigit(bytes[i] % 16)];
    }
    assert bytes[..|bytes|] == bytes;
  }

  /** The bytes of a character in UTF-8. */
  function Width(c: char): (w: nat)
    ensures 1 <= w <= 4
  {
    if c as int < 0x80 then 1 else if c as int < 0x800 then 2 else if c as int < 0x1_0000 then 3 else 4
  }

  /** The length of a text in bytes, which is what the decoder counts in. */
  function ByteLength(s: string): nat {
    if s == "" then 0 else Width(s[0]) + ByteLength(s[1..])
  }

  /** Two bytes on from character n is not the beginning of a character. */
  predicate CutsCharacter(s: string, n: nat)
    requires n < |s|
  {
    Width(s[n]) > 2 || (Width(s[n]) == 1 && n + 1 < |s| && Width(s[n + 1]) > 1)
  }

  /** All pairs before character n decode, and the next pair ends inside a character. */
  predicate PanicsAt(s: string, n: nat) {
    n < |s| && n % 2 == 0 && Decode(s[..n]).Some? && CutsCharacter(s, n)
  }

  /** `decode_hex`; slicing inside a character ends the process, which `panics` tells. */
  method DecodeHex(encoded: string) returns (r: Option<seq<Byte>>, panics: bool)
    ensures r == Decode(encoded)
    ensures panics <==> ByteLength(encoded) % 2 == 0 && exists n: nat :: PanicsAt(encoded, n)
  {
    hide PairValue, HexValue, Width;
    if ByteLength(encoded) % 2 != 0 {
      OddBytesNeverDecode(encoded);
      return None, false;
    }
    var bytes: seq<Byte> := [];
    var index := 0;
    assert encoded[0..] == encoded;
    while index < |encoded|
      invariant index % 2 == 0 && index <= |encoded|
      invariant Decode(encoded[..index]) == Some(bytes)
      invariant ByteLength(encoded[index..]) % 2 == 0
    {
      BytesFrom(encoded, index);
      if CutsCharacter(encoded, index) {
        WideNeverDecodes(encoded, if Width(encoded[index]) > 2 then index else index + 1);
        assert PanicsAt(encoded, index);
        return None, true;
      }
      if Width(encoded[index]) > 1 {
        WideNeverDecodes(encoded, index);
        NoPanicElsewhere(encoded, index);
        return None, false;
      }
      var x := PairValue(encoded[index], encoded[index + 1]);
      PairExtends(encoded, index);
      if x.None? {
        NoPanicElsewhere(encoded, index);
        return None, false;
      }
      bytes := bytes + [x.value];
      index := index + 2;
    }
    assert encoded[..|encoded|] == encoded;
    NoPanicBefore(encoded, |encoded|);
    r, panics := Some(bytes), false;
  }

  lemma BytesFrom(s: string, i: nat)
    requires i < |s|
    ensures ByteLength(s[i..]) == Width(s[i]) + ByteLength(s[i + 1..])
    ensures i + 1 == |s| ==> ByteLength(s[i..]) == Width(s[i])
    ensures i + 1 < |s| ==> ByteLength(s[i..]) == Width(s[i]) + Width(s[i + 1]) + ByteLength(s[i + 2..])
  {
    hide Width;
    assert s[i..][1..] == s[i + 1..];
    if i + 1 < |s| { assert s[i + 1..][1..] == s[i + 2..]; }
  }

  lemma HexIsNarrow(a: char, b: char)
    ensures PairValue(a, b).Some? ==> Width(a) == 1 && Width(b) == 1
  {}

  /** A text with a character outside ASCII does not decode. */
  lemma {:induction false} WideNeverDecodes(s: string, i: nat)
    requires i < |s| && Width(s[i]) > 1
    ensures Decode(s).None?
  {
    hide PairValue, Width;
    if |s| >= 2 {
      HexIsNarrow(s[|s| - 2], s[|s| - 1]);
      if i < |s| - 2 { WideNeverDecodes(s[..|s| - 2], i); }
    }
  }

  lemma {:induction false} AllNarrow(s: string)
    ensures Decode(s).Some? ==> ByteLength(s) == |s| && |s| % 2 == 0
  {
    hide PairValue, Width;
    if Decode(s).Some? {
      forall i | 0 <= i < |s| ensures Width(s[i]) == 1 {
        WidthPositive(s[i]);
        if Width(s[i]) > 1 { WideNeverDecodes(s, i); }
      }
      NarrowLength(s);
      if |s| % 2 == 1 { OddNeverDecodes(s); }
    }
  }

  lemma WidthPositive(c: char)
    ensures Width(c) >= 1
  {}

  lemma {:induction false} NarrowLength(s: string)
    requires forall i :: 0 <= i < |s| ==> Width(s[i]) == 1
    ensures ByteLength(s) == |s|
  {
    hide Width;
    if s != "" { NarrowLength(s[1..]); }
  }

  lemma OddBytesNeverDecode(s: string)
    requires ByteLength(s) % 2 == 1
    ensures Decode(s).None?
  {
    AllNarrow(s);
  }

  /** The next pair decides whether two more characters decode. */
  lemma PairExtends(s: string, i: nat)
    requires i + 1 < |s| && i % 2 == 0 && Decode(s[..i]).Some?
    ensures match PairValue(s[i], s[i + 1])
            case Some(x) => Decode(s[..i + 2]) == Some(Decode(s[..i]).value + [x])
            case None => Decode(s[..i + 2]).None? && Decode(s).None?
  {
    hide PairValue, Decode;
    assert s[..i + 2] == s[..i] + [s[i], s[i + 1]];
    DecodeSnoc(s[..i], s[i], s[i + 1]);
    if |s| % 2 == 1 { OddNeverDecodes(s); } else { PrefixMustDecode(s, i + 2); }
  }

  lemma NoPanicBefore(s: string, i: nat)
    requires i <= |s| && Decode(s[..i]).Some?
    ensures forall n: nat :: n < i ==> !PanicsAt(s, n)
  {
    hide PairValue, Width, Decode;
    forall n: nat | n < i ensures !PanicsAt(s, n) {
      AllNarrow(s[..i]);
      assert s[..i][n] == s[n];
      if Width(s[n]) > 1 { WideNeverDecodes(s[..i], n); }
      if n + 1 < i && Width(s[n + 1]) > 1 {
        assert s[..i][n + 1] == s[n + 1];
        WideNeverDecodes(s[..i], n + 1);
      }
    }
  }

  /** Where decoding fails between characters, no later pair is looked at. */
  lemma NoPanicElsewhere(s: string, i: nat)
    requires i < |s| && i % 2 == 0 && Decode(s[..i]).Some? && !CutsCharacter(s, i)
    requires Width(s[i]) > 1 || (i + 1 < |s| && PairValue(s[i], s[i + 1]).None?)
    ensures forall n: nat :: !PanicsAt(s, n)
  {
    hide PairValue, Width, Decode;
    NoPanicBefore(s, i);
    forall n: nat | i < n < |s| && n % 2 == 0 ensures Decode(s[..n]).None? {
      assert s[..n][i] == s[i] && s[..n][i + 1] == s[i + 1] && s[..n][..i] == s[..i];
      if Width(s[i]) > 1 { WideNeverDecodes(s[..n], i); } else { PairExtends(s[..n], i); }
    }
  }

  /** Whatever the encoder wrote is decoded without a panic, like every text in ASCII. */
  lemma AsciiNeverPanics(s: string)
    requires forall i :: 0 <= i < |s| ==> s[i] as int < 0x80
    ensures forall n: nat :: !PanicsAt(s, n)
  {
    hide Decode;
  }

  lemma {:induction false} OddNeverDecodes(s: string)
    requires |s| % 2 == 1
    ensures Decode(s).None?
  {
    if |s| > 1 { OddNeverDecodes(s[..|s| - 2]); }
  }

  lemma {:induction false} PrefixMustDecode(s: string, n: nat)
    requires n <= |s| && n % 2 == |s| % 2
    ensures Decode(s[..n]).None? ==> Decode(s).None?
  {
    if n == |s| {
      assert s[..n] == s;
    } else {
      PrefixMustDecode(s[..|s| - 2], n);
      assert s[..|s| - 2][..n] == s[..n];
    }
  }

  lemma DigitRoundTrip(x: Byte)
    ensures PairValue(HexDigit(x / 16), HexDigit(x % 16)) == Some(x)
  {
    DigitValue(x / 16);
    DigitValue(x % 16);
    assert x == 16 * (x / 16) + x % 16;
  }

  lemma DigitValue(d: nat)
    requires d < 16
    ensures HexValue(HexDigit(d)) == Some(d) && LowerHexDigit(HexDigit(d))
  {}

  predicate LowerHexDigit(c: char) { '0' <= c <= '9' || 'a' <= c <= 'f' }

  lemma DecodeSnoc(s: string, a: char, b: char)
    ensures Decode(s + [a, b]) == match (Decode(s), PairValue(a, b))
                                  case (Some(front), Some(x)) => Some(front + [x])
                                  case _ => None
  {
    hide PairValue;
    var t := s + [a, b];
    assert t[..|t| - 2] == s && t[|t| - 2] == a && t[|t| - 1] == b;
  }

  lemma NothingDecodes()
    ensures Decode("") == Some([])
  {}

  /** What was encoded decodes to itself. */
  lemma {:induction false} DecodeEncode(bytes: seq<Byte>)
    ensures Decode(Encode(bytes)) == Some(bytes)
  {
    hide PairValue, HexDigit, Decode;
    NothingDecodes();
    if bytes != [] {
      var front, x := bytes[..|bytes| - 1], bytes[|bytes| - 1];
      DecodeEncode(front);
      DigitRoundTrip(x);
      DecodeSnoc(Encode(front), HexDigit(x / 16), HexDigit(x % 16));
      assert bytes == front + [x];
    }
  }

  /** The encoder writes each byte as two lower-case digits, the high one first. */
  lemma {:induction false} EncodeMeans(bytes: seq<Byte>, k: nat)
    requires k < |bytes|
    ensures var s := Encode(bytes);
            && |s| == 2 * |bytes| && LowerHexDigit(s[2 * k]) && LowerHexDigit(s[2 * k + 1])
            && HexValue(s[2 * k]) == Some(bytes[k] / 16) && HexValue(s[2 * k + 1]) == Some(bytes[k] % 16)
  {
    hide HexDigit, LowerHexDigit;
    var n := |bytes| - 1;
    if n > 0 { EncodeMeans(bytes[..n], if k < n then k else 0); }
    DigitValue(bytes[n] / 16);
    DigitValue(bytes[n] % 16);
  }

  /** Two digits of either case, or a plus sign and a digit, for the byte x. */
  predicate Spells(a: char, b: char, x: Byte) {
    && HexValue(b).Some?
    && (|| (HexValue(a).Some? && x == 16 * HexValue(a).value + HexValue(b).value)
        || (a == '+' && x == HexValue(b).value))
  }

  lemma PairMeans(a: char, b: char, x: Byte)
    ensures PairValue(a, b) == Some(x) <==> Spells(a, b, x)
  {}

  /** What decodes, and to what: pairs of characters that spell the bytes in order. */
  lemma {:induction false} DecodeMeans(s: string, bytes: seq<Byte>)
    ensures Decode(s) == Some(bytes) <==>
              |s| == 2 * |bytes| && forall k :: 0 <= k < |bytes| ==> Spells(s[2 * k], s[2 * k + 1], bytes[k])
  {
    hide PairValue, Spells;
    if |s| >= 2 && bytes != [] {
      var n := |bytes| - 1;
      var front, a, b := s[..|s| - 2], s[|s| - 2], s[|s| - 1];
      DecodeMeans(front, bytes[..n]);
      PairMeans(a, b, bytes[n]);
      assert bytes == bytes[..n] + [bytes[n]];
      if Decode(s) == Some(bytes) { assert Decode(front).value == bytes[..n]; }
    }
  }

  predicate AllLowerHex(s: string) { forall i :: 0 <= i < |s| ==> LowerHexDigit(s[i]) }

  lemma PairCanonical(a: char, b: char)
    requires PairValue(a, b).Some?
    ensures var x := PairValue(a, b).value;
            (HexDigit(x / 16) == a && HexDigit(x % 16) == b) <==> LowerHexDigit(a) && LowerHexDigit(b)
  {
    var x := PairValue(a, b).value;
    DigitValue(x / 16);
    DigitValue(x % 16);
    if LowerHexDigit(a) && LowerHexDigit(b) {
      SmallHex(a);
      SmallHex(b);
      assert x == 16 * HexValue(a).value + HexValue(b).value;
      assert x / 16 == HexValue(a).value && x % 16 == HexValue(b).value;
    }
  }

  lemma SmallHex(c: char)
    requires LowerHexDigit(c)
    ensures HexValue(c).Some? && HexValue(c).value < 16 && HexDigit(HexValue(c).value) == c
  {}

  /**
   The other way round the decoder is more generous than the encoder: a text that decodes is
   what the encoder would write exactly when it has lower-case digits only, no sign.
   */
  lemma {:induction false} EncodeDecode(s: string)
    requires Decode(s).Some?
    ensures Encode(Decode(s).value) == s <==> AllLowerHex(s)
  {
    hide PairValue, HexDigit, LowerHexDigit;
    if s != "" {
      var front, a, b := s[..|s| - 2], s[|s| - 2], s[|s| - 1];
      EncodeDecode(front);
      PairCanonical(a, b);
      var x := PairValue(a, b).value;
      var bytes := Decode(s).value;
      assert bytes[..|bytes| - 1] == Decode(front).value && bytes[|bytes| - 1] == x;
      var e := Encode(Decode(front).value);
      assert Encode(bytes) == e + [HexDigit(x / 16), HexDigit(x % 16)];
      assert s == front + [a, b];
      SameTail(e, HexDigit(x / 16), HexDigit(x % 16), front, a, b);
      assert AllLowerHex(s) <==> AllLowerHex(front) && LowerHexDigit(a) && LowerHexDigit(b) by {
        assert forall i :: 0 <= i < |front| ==> front[i] == s[i];
      }
    }
  }

  lemma SameTail(e: string, c: char, d: char, f: string, a: char, b: char)
    ensures e + [c, d] == f + [a, b] <==> e == f && c == a && d == b
  {
    if e + [c, d] == f + [a, b] {
      assert |e| == |f|;
      assert e == (e + [c, d])[..|e|] && f == (f + [a, b])[..|f|];
      assert (e + [c, d])[|e|] == c && (f + [a, b])[|f|] == a;
      assert (e + [c, d])[|e| + 1] == d && (f + [a, b])[|f| + 1] == b;
    }
  }

  /* ----- objects ----- */

  datatype Attempt = Attempt(attemptId: string, intentId: string, baseCommit: string)

  datatype Change = Change(
    changeId: string,
    attemptId: string,
    runIds: seq<string>,
    filePaths: seq<string>,
    diffHash: string,
    contractHashes: seq<string>)

  datatype PatchDiff = PatchDiff(
    patchId: string,
    attemptId: string,
    baseCommit: string,
    diffHash: string,
    diffBytes: nat,
    filePaths: seq<string>,
    encoding: string,
    encodedDiff: string)

  datatype PreparedPatch = PreparedPatch(
    patchId: string,
    intentId: string,
    attemptId: string,
    baseCommit: string,
    changeIds: seq<string>,
    runIds: seq<string>,
    filePaths: seq<string>,
    diffHashes: seq<string>,
    diffObjectIds: seq<string>,
    contractHashes: seq<string>)

  datatype Stored = DiffObject(diff: PatchDiff) | PatchObject(patch: PreparedPatch) | OtherObject(text: string)

  /** An object as it is written: two writes carry the same bytes exactly when these are equal. */
  datatype SignedObject = SignedObject(content: Stored, signatures: seq<Signature>)

  /** The cache and the refs of one clone, by object id. */
  type Objects = Store.TwoTiers<SignedObject>

  /** The signatures put on an object: none without a key, else one by the key and label in use. */
  type Signer = Stored -> seq<Signature>

  /** Hashing, the digest of raw bytes, and the object id of an object. */
  datatype Names = Names(p: Primitives, digest: seq<Byte> -> string, id: Stored -> string) {
    /** Ids and digests tell their contents apart. */
    ghost predicate Sound() {
      && p.Sound()
      && (forall x, y :: digest(x) == digest(y) ==> x == y)
      && (forall x, y :: id(x) == id(y) ==> x == y)
    }
  }

  /** Every object is kept under its own id. */
  ghost predicate Addressed(objects: Objects, names: Names) {
    && (forall i :: i in objects.cache ==> names.id(objects.cache[i].content) == i)
    && (forall i :: i in objects.refs ==> names.id(objects.refs[i].content) == i)
  }

  /** The worktree as Git shows it: the binary diff from the base commit and the paths it touches. */
  datatype Detected = Detected(raw: seq<Byte>, filePaths: seq<string>)

  datatype PatchError =
    | NoEvidence
    | NoWorktree
    | EvidenceMismatch
    | Conflict
    | Stopped
    | ObjectMissing
    | WrongKind
    | WrongPatch
    | WrongAttempt
    | WrongBase
    | UnknownEncoding
    | HashNotListed
    | BadHex
    | HashMismatch
    | LengthMismatch

  datatype Outcome<+T> = Done(value: T) | Failed(error: PatchError)

  datatype Resolved = Resolved(diffHash: string, diffBytes: nat, filePaths: seq<string>, raw: seq<Byte>)

  function Of(changes: seq<Change>, attemptId: string): seq<Change> {
    if changes == [] then []
    else Of(changes[..|changes| - 1], attemptId)
         + (if changes[|changes| - 1].attemptId == attemptId then [changes[|changes| - 1]] else [])
  }

  function Map(changes: seq<Change>, f: Change -> seq<string>): seq<string> {
    if changes == [] then [] else f(changes[0]) + Map(changes[1..], f)
  }

  function ChangeIds(changes: seq<Change>): seq<string> { SortedDedup(Map(changes, (c: Change) => [c.changeId])) }

  function DiffHashes(changes: seq<Change>): seq<string> { SortedDedup(Map(changes, (c: Change) => [c.diffHash])) }

  function PatchIdMembers(attemptId: string, changeIds: seq<string>): seq<Member> {
    [Member("attempt_id", Str(attemptId)), Member("change_ids", StrArray(changeIds))]
  }

  function PatchId(attemptId: string, changeIds: seq<string>, p: Primitives): string {
    StableHash(Obj(PatchIdMembers(attemptId, changeIds)), p)
  }

  function DiffOf(attempt: Attempt, changes: seq<Change>, d: Detected, names: Names): PatchDiff {
    PatchDiff(PatchId(attempt.attemptId, ChangeIds(changes), names.p), attempt.attemptId, attempt.baseCommit,
              names.digest(d.raw), |d.raw|, d.filePaths, "hex", Encode(d.raw))
  }

  function PatchOf(attempt: Attempt, changes: seq<Change>, diffId: string, names: Names): PreparedPatch {
    PreparedPatch(PatchId(attempt.attemptId, ChangeIds(changes), names.p), attempt.intentId, attempt.attemptId, attempt.baseCommit,
                  ChangeIds(changes), SortedDedup(Map(changes, (c: Change) => c.runIds)), SortedDedup(Map(changes, (c: Change) => c.filePaths)),
                  DiffHashes(changes), [diffId], SortedDedup(Map(changes, (c: Change) => c.contractHashes)))
  }

  /** `write_signed_or_cached` */
  function Put(objects: Objects, x: SignedObject, stop: bool, names: Names): (Objects, Store.Outcome<Store.WriteStatus>) {
    Store.WriteBoth(objects, names.id(x.content), x, stop)
  }

  predicate HasEvidence(changes: seq<Change>, diffHash: string) {
    exists i :: 0 <= i < |changes| && changes[i].diffHash == diffHash
  }

  /** Where the process ends: never, between the tiers of either write, or between the two writes. */
  datatype Stop = Never | InDiff | Between | InPatch

  function Failure(error: Store.StoreError): PatchError {
    if error.Stopped? then Stopped else Conflict
  }

  /** The diff object of a prepare, as it would be written. */
  function SignedDiff(attempt: Attempt, changes: seq<Change>, d: Detected, signer: Signer, names: Names): SignedObject {
    var x := DiffObject(DiffOf(attempt, changes, d, names));
    SignedObject(x, signer(x))
  }

  function SignedPatch(attempt: Attempt, changes: seq<Change>, d: Detected, signer: Signer, names: Names): SignedObject {
    var x := PatchObject(PatchOf(attempt, changes, names.id(SignedDiff(attempt, changes, d, signer, names).content), names));
    SignedObject(x, signer(x))
  }

  /** The two object writes that end `patch prepare`. */
  function WriteEvidence(objects: Objects, diff: SignedObject, patch: SignedObject, stop: Stop, names: Names): (Objects, Option<PatchError>) {
    var (once, r) := Put(objects, diff, stop.InDiff?, names);
    if r.Failed? then (once, Some(Failure(r.error)))
    else if stop.Between? then (once, Some(Stopped))
    else
      var (twice, r') := Put(once, patch, stop.InPatch?, names);
      (twice, if r'.Failed? then Some(Failure(r'.error)) else None)
  }

  /** `patch prepare` */
  function Prepare(objects: Objects, attempt: Attempt, all: seq<Change>, worktree: Option<Detected>, signer: Signer, stop: Stop, names: Names):
    (Objects, Outcome<PreparedPatch>)
  {
    var changes := Of(all, attempt.attemptId);
    if changes == [] then (objects, Failed(NoEvidence))
    else if worktree.None? then (objects, Failed(NoWorktree))
    else if !HasEvidence(changes, names.digest(worktree.value.raw)) then (objects, Failed(EvidenceMismatch))
    else
      var patch := SignedPatch(attempt, changes, worktree.value, signer, names);
      var (after, error) := WriteEvidence(objects, SignedDiff(attempt, changes, worktree.value, signer, names), patch, stop, names);
      (after, if error.Some? then Failed(error.value) else Done(patch.content.patch))
  }

  class PatchLedger {
    var cache: map<string, SignedObject>
    var refs: map<string, SignedObject>

    constructor ()
      ensures Contents() == Store.Tiers(map[], map[])
    {
      cache, refs := map[], map[];
    }

    function Contents(): Objects
      reads this
    {
      Store.Tiers(cache, refs)
    }

    method WriteObject(x: SignedObject, stop: bool, names: Names) returns (r: Store.Outcome<Store.WriteStatus>)
      modifies this
      ensures (Contents(), r) == Put(old(Contents()), x, stop, names)
    {
      var i := names.id(x.content);
      if i in cache {
        if cache[i] != x {
          return Store.Failed(Store.CacheConflict);
        }
        r := Store.Done(Store.AlreadyExists);
      } else {
        cache := cache[i := x];
        r := Store.Done(Store.Written);
      }
      if stop {
        return Store.Failed(Store.Stopped);
      }
      if i in refs {
        if refs[i] != x {
          return Store.Failed(Store.RefConflict);
        }
        return;
      }
      refs := refs[i := x];
    }

    method PreparePatch(attempt: Attempt, all: seq<Change>, worktree: Option<Detected>, signer: Signer, stop: Stop, names: Names)
      returns (r: Outcome<PreparedPatch>)
      modifies this
      ensures (Contents(), r) == Prepare(old(Contents()), attempt, all, worktree, signer, stop, names)
    {
      hide PatchId, ChangeIds, DiffHashes, Encode, PatchOf, Put;
      var changes := EvidenceFor(all, attempt.attemptId);
      if changes == [] {
        return Failed(NoEvidence);
      }
      if worktree.None? {
        return Failed(NoWorktree);
      }
      var d := worktree.value;
      if !HasEvidence(changes, names.digest(d.raw)) {
        return Failed(EvidenceMismatch);
      }
      var encoded := EncodeHex(d.raw);
      var diff := DiffObject(PatchDiff(PatchId(attempt.attemptId, ChangeIds(changes), names.p), attempt.attemptId, attempt.baseCommit,
                                       names.digest(d.raw), |d.raw|, d.filePaths, "hex", encoded));
      var written := WriteObject(SignedObject(diff, signer(diff)), stop.InDiff?, names);
      if written.Failed? {
        return Failed(Failure(written.error));
      }
      if stop.Between? {
        return Failed(Stopped);
      }
      var patch := PatchOf(attempt, changes, names.id(diff), names);
      written := WriteObject(SignedObject(PatchObject(patch), signer(PatchObject(patch))), stop.InPatch?, names);
      r := if written.Failed? then Failed(Failure(written.error)) else Done(patch);
    }
  }

  method EvidenceFor(all: seq<Change>, attemptId: string) returns (changes: seq<Change>)
    ensures changes == Of(all, attemptId)
  {
    changes := [];
    for i := 0 to |all|
      invariant changes == Of(all[..i], attemptId)
    {
      assert all[..i + 1][..i] == all[..i];
      if all[i].attemptId == attemptId {
        changes := changes + [all[i]];
      }
    }
    assert all[..|all|] == all;
  }

  /** The checks on a stored diff object. */
  function ResolveStored(x: Stored, patch: PreparedPatch, names: Names): Outcome<Resolved> {
    if !x.DiffObject? then Failed(WrongKind)
    else
      var d := x.diff;
      if d.patchId != patch.patchId then Failed(WrongPatch)
      else if d.attemptId != patch.attemptId then Failed(WrongAttempt)
      else if d.baseCommit != patch.baseCommit then Failed(WrongBase)
      else if d.encoding != "hex" then Failed(UnknownEncoding)
      else if d.diffHash !in patch.diffHashes then Failed(HashNotListed)
      else
        match Decode(d.encodedDiff)
        case None => Failed(BadHex)
        case Some(raw) =>
          if names.digest(raw) != d.diffHash then Failed(HashMismatch)
          else if |raw| != d.diffBytes then Failed(LengthMismatch)
          else Done(Resolved(d.diffHash, d.diffBytes, d.filePaths, raw))
  }

  /** What reading an id gives: the cached object, else the one its ref holds if it has that id. */
  function Find(objects: Objects, i: string, names: Names): Option<Stored> {
    if i in objects.cache then Some(objects.cache[i].content)
    else if i in objects.refs && names.id(objects.refs[i].content) == i then Some(objects.refs[i].content)
    else None
  }

  /** `resolve_patch_diff`: from the stored diff, or, for a patch without one, from the worktree. */
  function Resolve(objects: Objects, patch: PreparedPatch, worktree: Option<Detected>, names: Names): Outcome<Resolved> {
    if patch.diffObjectIds != [] then
      match Find(objects, patch.diffObjectIds[0], names)
      case None => Failed(ObjectMissing)
      case Some(x) => ResolveStored(x, patch, names)
    else
      match worktree
      case None => Failed(NoWorktree)
      case Some(d) =>
        if names.digest(d.raw) !in patch.diffHashes then Failed(HashNotListed)
        else Done(Resolved(names.digest(d.raw), |d.raw|, d.filePaths, d.raw))
  }

  /* ----- what prepare promises ----- */

  lemma {:induction false} MapMembers(changes: seq<Change>, f: Change -> seq<string>, x: string)
    ensures x in Map(changes, f) <==> exists i :: 0 <= i < |changes| && x in f(changes[i])
  {
    if changes != [] {
      MapMembers(changes[1..], f, x);
      if i :| 0 <= i < |changes[1..]| && x in f(changes[1..][i]) {
        assert changes[i + 1] == changes[1..][i];
      }
      if i :| 0 <= i < |changes| && x in f(changes[i]) {
        if i > 0 { assert changes[1..][i - 1] == changes[i]; }
      }
    }
  }

  lemma EvidenceIsListed(changes: seq<Change>, hash: string)
    ensures HasEvidence(changes, hash) <==> hash in DiffHashes(changes)
  {
    MapMembers(changes, (c: Change) => [c.diffHash], hash);
    if i :| 0 <= i < |changes| && changes[i].diffHash == hash {
      assert hash in ((c: Change) => [c.diffHash])(changes[i]);
    }
  }

  /** The id of x is stored in neither tier with other bytes. */
  predicate Unopposed(objects: Objects, x: SignedObject, names: Names) {
    var i := names.id(x.content);
    && (i in objects.cache ==> objects.cache[i] == x)
    && (i in objects.refs ==> objects.refs[i] == x)
  }

  ghost predicate GrowsOnly(before: Objects, after: Objects) {
    Grows(before.cache, after.cache) && Grows(before.refs, after.refs)
  }

  /** A write succeeds exactly when it is unopposed and not stopped, and touches its own id only. */
  lemma PutOutcome(objects: Objects, x: SignedObject, stop: bool, names: Names)
    requires Addressed(objects, names)
    ensures var (after, r) := Put(objects, x, stop, names);
            var i := names.id(x.content);
            && Addressed(after, names) && GrowsOnly(objects, after)
            && (r.Done? <==> Unopposed(objects, x, names) && !stop)
            && (r.Failed? <==> !r.Done?)
            && (r.Failed? && !stop ==> Failure(r.error) == Conflict)
            && (r.Done? ==> after == Store.Tiers(objects.cache[i := x], objects.refs[i := x]))
            && (forall y: SignedObject :: names.id(y.content) != i ==> (Unopposed(after, y, names) <==> Unopposed(objects, y, names)))
  {}

  /** Both writes succeed exactly when both are unopposed and nothing stops them. */
  lemma WriteEvidenceOutcome(objects: Objects, diff: SignedObject, patch: SignedObject, stop: Stop, names: Names)
    requires Addressed(objects, names) && names.id(diff.content) != names.id(patch.content)
    ensures var (after, error) := WriteEvidence(objects, diff, patch, stop, names);
            && Addressed(after, names) && GrowsOnly(objects, after)
            && (error.None? <==> stop.Never? && Unopposed(objects, diff, names) && Unopposed(objects, patch, names))
            && (error.Some? <==> !error.None?)
            && (error.Some? && stop.Never? ==> error.value == Conflict)
            && (error.None? ==>
                  && after.cache == objects.cache[names.id(diff.content) := diff][names.id(patch.content) := patch]
                  && after.refs == objects.refs[names.id(diff.content) := diff][names.id(patch.content) := patch])
  {
    hide Put, Unopposed;
    PutOutcome(objects, diff, stop.InDiff?, names);
    var once := Put(objects, diff, stop.InDiff?, names).0;
    assert Unopposed(once, patch, names) <==> Unopposed(objects, patch, names);
    PutOutcome(once, patch, stop.InPatch?, names);
  }

  /** Some change of this attempt recorded this diff hash. */
  predicate Recorded(all: seq<Change>, attemptId: string, hash: string) {
    exists i :: 0 <= i < |all| && all[i].attemptId == attemptId && all[i].diffHash == hash
  }

  /** Prepare past its checks. */
  lemma PrepareWrites(objects: Objects, attempt: Attempt, all: seq<Change>, d: Detected, signer: Signer, stop: Stop, names: Names)
    requires names.Sound()
    ensures var changes := Of(all, attempt.attemptId);
            var diff, patch := SignedDiff(attempt, changes, d, signer, names), SignedPatch(attempt, changes, d, signer, names);
            && names.id(diff.content) != names.id(patch.content)
            && patch.content.PatchObject? && patch.content.patch.diffObjectIds == [names.id(diff.content)]
            && var (after, error) := WriteEvidence(objects, diff, patch, stop, names);
            Prepare(objects, attempt, all, Some(d), signer, stop, names) ==
              if !Recorded(all, attempt.attemptId, names.digest(d.raw))
              then (objects, Failed(if changes == [] then NoEvidence else EvidenceMismatch))
              else (after, if error.Some? then Failed(error.value) else Done(patch.content.patch))
  {
    hide PatchId, ChangeIds, DiffHashes, Encode, Of, WriteEvidence;
    OfHasEvidence(all, attempt.attemptId, names.digest(d.raw));
  }

  /**
   Prepare succeeds exactly when nothing stops it, some change of the attempt recorded the
   worktree's diff, and neither of its two ids is stored with other bytes, say with other
   signatures; then it adds its two objects. However it ends, nothing stored is changed.
   */
  lemma PrepareOutcome(objects: Objects, attempt: Attempt, all: seq<Change>, d: Detected, signer: Signer, stop: Stop, names: Names)
    requires names.Sound() && Addressed(objects, names)
    ensures var changes := Of(all, attempt.attemptId);
            var diff, patch := SignedDiff(attempt, changes, d, signer, names), SignedPatch(attempt, changes, d, signer, names);
            var (after, r) := Prepare(objects, attempt, all, Some(d), signer, stop, names);
            && Addressed(after, names) && GrowsOnly(objects, after)
            && (r.Done? <==> stop.Never? && Recorded(all, attempt.attemptId, names.digest(d.raw))
                             && Unopposed(objects, diff, names) && Unopposed(objects, patch, names))
            && (r.Done? ==>
                  && r.value == patch.content.patch && r.value.diffObjectIds == [names.id(diff.content)]
                  && after.cache == objects.cache[names.id(diff.content) := diff][names.id(patch.content) := patch]
                  && after.refs == objects.refs[names.id(diff.content) := diff][names.id(patch.content) := patch])
  {
    hide Prepare, SignedDiff, SignedPatch, WriteEvidence, Unopposed, Of, Addressed;
    PrepareWrites(objects, attempt, all, d, signer, stop, names);
    var changes := Of(all, attempt.attemptId);
    WriteEvidenceOutcome(objects, SignedDiff(attempt, changes, d, signer, names), SignedPatch(attempt, changes, d, signer, names), stop, names);
    NothingGrows(objects);
  }

  lemma NothingGrows(objects: Objects)
    ensures GrowsOnly(objects, objects)
  {}

  /** Which check fails: no change of the attempt, no worktree, or no change that recorded its diff, in that order; nothing is written then. */
  lemma PrepareErrors(objects: Objects, attempt: Attempt, all: seq<Change>, worktree: Option<Detected>, signer: Signer, stop: Stop, names: Names)
    requires names.Sound()
    ensures var (after, r) := Prepare(objects, attempt, all, worktree, signer, stop, names);
            var some := exists i :: 0 <= i < |all| && all[i].attemptId == attempt.attemptId;
            && (r == Failed(NoEvidence) <==> !some)
            && (r == Failed(NoWorktree) <==> some && worktree.None?)
            && (r == Failed(EvidenceMismatch) <==> some && worktree.Some? && !Recorded(all, attempt.attemptId, names.digest(worktree.value.raw)))
            && (r.Failed? && r.error in {NoEvidence, NoWorktree, EvidenceMismatch} ==> after == objects)
            && (r.Failed? ==> r.error in {NoEvidence, NoWorktree, EvidenceMismatch, Conflict, Stopped})
  {
    OfEmpty(all, attempt.attemptId);
    hide PatchId, ChangeIds, DiffHashes, Encode, Of, Put, SignedDiff, SignedPatch;
    if worktree.Some? {
      PrepareWrites(objects, attempt, all, worktree.value, signer, stop, names);
    }
  }

  lemma {:induction false} OfEmpty(all: seq<Change>, attemptId: string)
    ensures Of(all, attemptId) == [] <==> forall i :: 0 <= i < |all| ==> all[i].attemptId != attemptId
  {
    if all != [] { OfEmpty(all[..|all| - 1], attemptId); }
  }

  /** Without a worktree prepare fails and changes nothing. */
  lemma NoWorktreeNoPatch(objects: Objects, attempt: Attempt, all: seq<Change>, signer: Signer, stop: Stop, names: Names)
    ensures var (after, r) := Prepare(objects, attempt, all, None, signer, stop, names); r.Failed? && after == objects
  {}

  /**
   Preparing once more, from the same evidence and worktree, succeeds exactly when both objects
   are signed as before. With a key where there was none, or another key or label, it fails with
   a conflict although the evidence is in order, and changes nothing.
   */
  lemma PrepareAgain(objects: Objects, attempt: Attempt, all: seq<Change>, d: Detected, first: Signer, second: Signer, names: Names)
    requires names.Sound() && Addressed(objects, names)
    ensures var changes := Of(all, attempt.attemptId);
            var diff, patch := SignedDiff(attempt, changes, d, first, names).content, SignedPatch(attempt, changes, d, first, names).content;
            var (after, r) := Prepare(objects, attempt, all, Some(d), first, Never, names);
            r.Done? ==>
              var (again, r') := Prepare(after, attempt, all, Some(d), second, Never, names);
              && again == after
              && (r'.Done? <==> second(diff) == first(diff) && second(patch) == first(patch))
              && (r'.Failed? ==> r'.error == Conflict)
  {
    hide Prepare, WriteEvidence, Of, Addressed, GrowsOnly, Unopposed, SignedDiff, SignedPatch;
    var changes := Of(all, attempt.attemptId);
    SameContents(attempt, changes, d, first, second, names);
    var diff, patch := SignedDiff(attempt, changes, d, first, names), SignedPatch(attempt, changes, d, first, names);
    PrepareOutcome(objects, attempt, all, d, first, Never, names);
    var (after, r) := Prepare(objects, attempt, all, Some(d), first, Never, names);
    if r.Done? {
      PrepareWrites(after, attempt, all, d, second, Never, names);
      PrepareWrites(objects, attempt, all, d, first, Never, names);
      WriteAgain(after, diff, patch, SignedDiff(attempt, changes, d, second, names), SignedPatch(attempt, changes, d, second, names), names);
    }
  }

  lemma SameContents(attempt: Attempt, changes: seq<Change>, d: Detected, first: Signer, second: Signer, names: Names)
    ensures var x, y := SignedDiff(attempt, changes, d, first, names), SignedDiff(attempt, changes, d, second, names);
            x == SignedObject(x.content, first(x.content)) && y == SignedObject(x.content, second(x.content))
    ensures var x, y := SignedPatch(attempt, changes, d, first, names), SignedPatch(attempt, changes, d, second, names);
            x == SignedObject(x.content, first(x.content)) && y == SignedObject(x.content, second(x.content))
  {
    hide PatchOf, DiffOf;
  }

  /** Writing two stored objects again leaves the store alone, and works exactly with the same bytes. */
  lemma WriteAgain(after: Objects, diff: SignedObject, patch: SignedObject, diff': SignedObject, patch': SignedObject, names: Names)
    requires diff'.content == diff.content && patch'.content == patch.content && names.id(diff.content) != names.id(patch.content)
    requires forall x :: x == diff || x == patch ==>
               names.id(x.content) in after.cache && names.id(x.content) in after.refs
               && after.cache[names.id(x.content)] == x && after.refs[names.id(x.content)] == x
    ensures var (again, error) := WriteEvidence(after, diff', patch', Never, names);
            && again == after
            && (error.None? <==> diff' == diff && patch' == patch)
            && (error.Some? <==> !error.None?)
            && (error.Some? ==> error.value == Conflict)
  {}

  /**
   Deleting the cache file of the diff does not help: the ref refuses the other bytes, which by
   then are in the cache.
   */
  lemma DeletedCacheDoesNotHelp(objects: Objects, attempt: Attempt, all: seq<Change>, d: Detected, first: Signer, second: Signer, names: Names)
    requires names.Sound() && Addressed(objects, names)
    ensures var changes := Of(all, attempt.attemptId);
            var diff, diff' := SignedDiff(attempt, changes, d, first, names), SignedDiff(attempt, changes, d, second, names);
            var i := names.id(diff.content);
            var (after, r) := Prepare(objects, attempt, all, Some(d), first, Never, names);
            r.Done? && second(diff.content) != first(diff.content) ==>
              var (again, r') := Prepare(after.(cache := after.cache - {i}), attempt, all, Some(d), second, Never, names);
              && r' == Failed(Conflict)
              && again == after.(cache := after.cache[i := diff'])
  {
    hide Prepare, Of, Addressed, GrowsOnly, PatchId, ChangeIds, DiffHashes, Encode;
    var changes := Of(all, attempt.attemptId);
    var i := names.id(SignedDiff(attempt, changes, d, first, names).content);
    PrepareOutcome(objects, attempt, all, d, first, Never, names);
    PrepareWrites(objects, attempt, all, d, first, Never, names);
    var (after, r) := Prepare(objects, attempt, all, Some(d), first, Never, names);
    if r.Done? && SignedDiff(attempt, changes, d, first, names) != SignedDiff(attempt, changes, d, second, names) {
      PrepareWrites(after.(cache := after.cache - {i}), attempt, all, d, second, Never, names);
      assert (after.cache - {i})[i := SignedDiff(attempt, changes, d, second, names)] == after.cache[i := SignedDiff(attempt, changes, d, second, names)];
    }
  }

  /** Under sound names, an id that is held at all is held with its one content. */
  lemma FindAddressed(objects: Objects, x: Stored, names: Names)
    requires names.Sound() && Addressed(objects, names)
    requires names.id(x) in objects.cache || names.id(x) in objects.refs
    ensures Find(objects, names.id(x), names) == Some(x)
  {}

  /**
   A prepared patch can be resolved in every later state of the store, and on every clone that
   has its diff object in either tier and under whatever signatures, with or without a worktree,
   to exactly the raw bytes seen when it was prepared.
   */
  lemma PreparedPatchResolves(objects: Objects, attempt: Attempt, all: seq<Change>, seen: Detected, signer: Signer, names: Names,
                              later: Objects, worktree: Option<Detected>)
    requires names.Sound() && Addressed(objects, names) && Addressed(later, names)
    ensures var r := Prepare(objects, attempt, all, Some(seen), signer, Never, names).1;
            r.Done? && (forall i :: i in r.value.diffObjectIds ==> i in later.cache || i in later.refs) ==>
              Resolve(later, r.value, worktree, names) == Done(Resolved(names.digest(seen.raw), |seen.raw|, seen.filePaths, seen.raw))
  {
    hide Prepare, PatchId, ChangeIds, DiffHashes, Encode, Decode, Of, Addressed, GrowsOnly, WriteEvidence, Find;
    var changes := Of(all, attempt.attemptId);
    PrepareOutcome(objects, attempt, all, seen, signer, Never, names);
    var r := Prepare(objects, attempt, all, Some(seen), signer, Never, names).1;
    if r.Done? {
      var diff := SignedDiff(attempt, changes, seen, signer, names).content;
      assert names.id(diff) in r.value.diffObjectIds;
      if names.id(diff) in later.cache || names.id(diff) in later.refs { FindAddressed(later, diff, names); }
      OfHasEvidence(all, attempt.attemptId, names.digest(seen.raw));
      EvidenceIsListed(changes, names.digest(seen.raw));
      DecodeEncode(seen.raw);
    }
  }

  lemma {:induction false} OfHasEvidence(all: seq<Change>, attemptId: string, hash: string)
    ensures HasEvidence(Of(all, attemptId), hash) <==> Recorded(all, attemptId, hash)
  {
    if all != [] {
      var front, last := all[..|all| - 1], all[|all| - 1];
      OfHasEvidence(front, attemptId, hash);
      var a := Of(front, attemptId);
      if last.attemptId == attemptId {
        assert Of(all, attemptId) == a + [last];
        assert (a + [last])[|a|] == last;
        if i :| 0 <= i < |a| && a[i].diffHash == hash { assert (a + [last])[i].diffHash == hash; }
      } else {
        assert Of(all, attemptId) == a;
      }
      if i :| 0 <= i < |front| && front[i].attemptId == attemptId && front[i].diffHash == hash {
        assert all[i] == front[i];
      }
      if i :| 0 <= i < |all| && all[i].attemptId == attemptId && all[i].diffHash == hash {
        if i < |front| { assert front[i] == all[i]; }
      }
    }
  }

  lemma {:induction false} OfMembers(all: seq<Change>, attemptId: string, c: Change)
    ensures c in Of(all, attemptId) <==> c in all && c.attemptId == attemptId
  {
    if all != [] {
      OfMembers(all[..|all| - 1], attemptId, c);
      assert all == all[..|all| - 1] + [all[|all| - 1]];
    }
  }

  /** x is among what f gives for some change of this attempt. */
  ghost predicate FromSome(all: seq<Change>, attemptId: string, f: Change -> seq<string>, x: string) {
    exists c :: c in all && c.attemptId == attemptId && x in f(c)
  }

  lemma SummaryMembers(all: seq<Change>, attemptId: string, f: Change -> seq<string>, x: string)
    ensures x in SortedDedup(Map(Of(all, attemptId), f)) <==> FromSome(all, attemptId, f, x)
  {
    var changes := Of(all, attemptId);
    MapMembers(changes, f, x);
    if i :| 0 <= i < |changes| && x in f(changes[i]) {
      OfMembers(all, attemptId, changes[i]);
      assert changes[i] in changes;
    }
    if c :| c in all && c.attemptId == attemptId && x in f(c) {
      OfMembers(all, attemptId, c);
      var i :| 0 <= i < |changes| && changes[i] == c;
    }
  }

  /** A sorted list without repetition of exactly what f gives for the changes of this attempt. */
  ghost predicate Summary(list: seq<string>, all: seq<Change>, attemptId: string, f: Change -> seq<string>) {
    Ascending(list) && forall x :: x in list <==> FromSome(all, attemptId, f, x)
  }

  lemma Summarised(all: seq<Change>, attemptId: string, f: Change -> seq<string>)
    ensures Summary(SortedDedup(Map(Of(all, attemptId), f)), all, attemptId, f)
  {
    hide Map, Of;
    forall x ensures x in SortedDedup(Map(Of(all, attemptId), f)) <==> FromSome(all, attemptId, f, x) {
      SummaryMembers(all, attemptId, f, x);
    }
  }

  ghost predicate SumsUp(patch: PreparedPatch, attempt: Attempt, all: seq<Change>, p: Primitives) {
    var id := attempt.attemptId;
    && patch.attemptId == id && patch.intentId == attempt.intentId && patch.baseCommit == attempt.baseCommit
    && patch.patchId == PatchId(id, patch.changeIds, p)
    && Summary(patch.changeIds, all, id, (c: Change) => [c.changeId])
    && Summary(patch.diffHashes, all, id, (c: Change) => [c.diffHash])
    && Summary(patch.runIds, all, id, (c: Change) => c.runIds)
    && Summary(patch.filePaths, all, id, (c: Change) => c.filePaths)
    && Summary(patch.contractHashes, all, id, (c: Change) => c.contractHashes)
  }

  /** A prepared patch carries its attempt's fields and sums up exactly that attempt's changes. */
  lemma PreparedPatchSummary(objects: Objects, attempt: Attempt, all: seq<Change>, worktree: Option<Detected>, signer: Signer, stop: Stop, names: Names)
    ensures var r := Prepare(objects, attempt, all, worktree, signer, stop, names).1;
            r.Done? ==> SumsUp(r.value, attempt, all, names.p)
  {
    hide PatchId, Of, Map, SortedDedup, Summary, Encode, WriteEvidence;
    Summarised(all, attempt.attemptId, (c: Change) => [c.changeId]);
    Summarised(all, attempt.attemptId, (c: Change) => [c.diffHash]);
    Summarised(all, attempt.attemptId, (c: Change) => c.runIds);
    Summarised(all, attempt.attemptId, (c: Change) => c.filePaths);
    Summarised(all, attempt.attemptId, (c: Change) => c.contractHashes);
  }

  /** Whatever resolves has a listed hash that is the digest of its bytes, and their number. */
  lemma ResolvedIsListed(objects: Objects, patch: PreparedPatch, worktree: Option<Detected>, names: Names)
    requires Resolve(objects, patch, worktree, names).Done?
    ensures var x := Resolve(objects, patch, worktree, names).value;
            x.diffHash == names.digest(x.raw) && x.diffHash in patch.diffHashes && x.diffBytes == |x.raw|
  {
    hide Decode;
  }

  /** x is what a reader of the id i gets: the cached object, whatever it is, or else what the ref holds, if that has the id. */
  ghost predicate Held(objects: Objects, i: string, x: Stored, names: Names) {
    || (i in objects.cache && x == objects.cache[i].content)
    || (i in objects.refs && i !in objects.cache && x == objects.refs[i].content && i == names.id(x))
  }

  /** A stored diff that belongs to the patch, and what is in it. */
  ghost predicate Carries(d: PatchDiff, patch: PreparedPatch, y: Resolved, names: Names) {
    && d.patchId == patch.patchId && d.attemptId == patch.attemptId && d.baseCommit == patch.baseCommit
    && d.encoding == "hex" && Decode(d.encodedDiff) == Some(y.raw)
    && y.diffHash == d.diffHash && y.diffBytes == d.diffBytes && y.filePaths == d.filePaths
  }

  /**
   When a patch resolves, and to what: to bytes of the recorded length whose digest is listed and
   recorded. They are those of its first diff object, if that belongs to the patch; a patch that
   never had one takes the worktree's.
   */
  lemma ResolveOutcome(objects: Objects, patch: PreparedPatch, worktree: Option<Detected>, y: Resolved, names: Names)
    ensures Resolve(objects, patch, worktree, names) == Done(y) <==>
              && y.diffHash == names.digest(y.raw) && y.diffHash in patch.diffHashes && y.diffBytes == |y.raw|
              && (if |patch.diffObjectIds| > 0
                  then exists d :: Held(objects, patch.diffObjectIds[0], DiffObject(d), names) && Carries(d, patch, y, names)
                  else worktree == Some(Detected(y.raw, y.filePaths)))
  {
    hide Decode;
    if patch.diffObjectIds != [] {
      var x := Find(objects, patch.diffObjectIds[0], names);
      if x.Some? && x.value.DiffObject? {
        assert x == Some(DiffObject(x.value.diff));
      }
    }
  }

  /** Two resolutions, on any clones, that report one diff hash give the same bytes. */
  lemma SameHashSameBytes(o1: Objects, p1: PreparedPatch, w1: Option<Detected>,
                          o2: Objects, p2: PreparedPatch, w2: Option<Detected>, names: Names)
    requires names.Sound()
    requires Resolve(o1, p1, w1, names).Done? && Resolve(o2, p2, w2, names).Done?
    requires Resolve(o1, p1, w1, names).value.diffHash == Resolve(o2, p2, w2, names).value.diffHash
    ensures Resolve(o1, p1, w1, names).value.raw == Resolve(o2, p2, w2, names).value.raw
  {
    hide Resolve;
    ResolvedIsListed(o1, p1, w1, names);
    ResolvedIsListed(o2, p2, w2, names);
  }

  /** A patch id fixes the attempt and the set of change ids, in whatever order they were listed. */
  lemma PatchIdDecides(a1: string, c1: seq<Change>, a2: string, c2: seq<Change>, p: Primitives)
    requires p.Sound()
    ensures PatchId(a1, ChangeIds(c1), p) == PatchId(a2, ChangeIds(c2), p)
       <==> a1 == a2 && forall x :: x in ChangeIds(c1) <==> x in ChangeIds(c2)
  {
    hide StableHash, WellFormed, Equivalent, PatchIdMembers, ChangeIds;
    var x, y := ChangeIds(c1), ChangeIds(c2);
    PatchIdMembersDecide(a1, x, a2, y);
    StableHashDecides(Obj(PatchIdMembers(a1, x)), Obj(PatchIdMembers(a2, y)), p);
    ChangeIdsAscend(c1);
    ChangeIdsAscend(c2);
    if forall i :: i in x <==> i in y {
      AscendingUnique(x, y);
    }
  }

  /** A patch id is the hash of the attempt id and the change ids, each under its name. */
  lemma PatchIdSays(attemptId: string, changeIds: seq<string>, p: Primitives, float: FloatReader)
    requires SoundSpelling(p.spell) && Undoes(float, p.spell)
    ensures HashOf(PatchId(attemptId, changeIds, p), map["attempt_id" := Str(attemptId), "change_ids" := StrArray(changeIds)], p, float)
  {
    hide Canonical, HashOf, StableHash, WellFormed, StrArray, Equivalent;
    ScalarsCanonical(attemptId, 0);
    StrArrayCanonical(changeIds);
    var ms := PatchIdMembers(attemptId, changeIds);
    assert ms[0].key == "attempt_id" && ms[1].key == "change_ids";
    PatchIdMembersDecide(attemptId, changeIds, attemptId, changeIds);
    FieldsRead(ms, map["attempt_id" := Str(attemptId), "change_ids" := StrArray(changeIds)], p, float);
  }

  lemma ChangeIdsAscend(changes: seq<Change>)
    ensures Ascending(ChangeIds(changes))
  {}

  lemma PatchIdMembersDecide(a1: string, x: seq<string>, a2: string, y: seq<string>)
    ensures WellFormed(Obj(PatchIdMembers(a1, x))) && WellFormed(Obj(PatchIdMembers(a2, y)))
    ensures Equivalent(Obj(PatchIdMembers(a1, x)), Obj(PatchIdMembers(a2, y))) <==> a1 == a2 && x == y
  {
    var ms, ns := PatchIdMembers(a1, x), PatchIdMembers(a2, y);
    ParallelMembers(ms, ns);
    StrArrayEquivalent(x, y);
    assert Equivalent(ms[0].value, ns[0].value) <==> a1 == a2;
    assert Equivalent(ms[1].value, ns[1].value) <==> x == y;
  }
}
