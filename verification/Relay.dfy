/**
 What both relay stores share: requests, reports, and the validation of a bundle before
 anything is written.
 */
module Relay {
  import opened Text
  import opened Numbers
  import opened Json
  import opened Identity

  datatype Result<+T> = Ok(value: T) | Err(error: RelayError)

  datatype RelayError =
    | InvalidObject(objectId: string, reason: Invalidity)
    | ObjectConflict(conflictId: string)
    | Io

  datatype Invalidity = BodyHashMismatch | ObjectIdMismatch | Unsigned | SignatureUnverifiable | SignatureInvalid

  datatype PushRequest = PushRequest(repo: string, key: string, objects: seq<CanonicalObject>)

  datatype PushReport = PushReport(
    repo: string,
    key: string,
    accepted: nat,
    duplicate: nat,
    objectIds: seq<string>,
    bundleHash: string)

  /** The outcome of checking one signature: an error, or a verdict. */
  datatype SignatureCheck = Unverifiable | Verdict(ok: bool)

  /** Hashing, signature checking, and the relay's signature policy. */
  datatype Rules = Rules(
    p: Primitives,
    check: (string, string, Value, Signature) -> SignatureCheck,
    enforceSignatures: bool,
    legacyUnsigned: set<string>)

  function Ids(objects: seq<CanonicalObject>): (r: seq<string>)
    ensures |r| == |objects| && forall i :: 0 <= i < |r| ==> r[i] == objects[i].objectId
  {
    seq(|objects|, i requires 0 <= i < |objects| => objects[i].objectId)
  }

  /** The first signature that fails, in order. */
  function SignatureFault(o: CanonicalObject, sigs: seq<Signature>, rules: Rules): Option<Invalidity> {
    if sigs == [] then None
    else
      match rules.check(o.kind, o.schemaVersion, o.body, sigs[0])
      case Unverifiable => Some(SignatureUnverifiable)
      case Verdict(ok) => if ok then SignatureFault(o, sigs[1..], rules) else Some(SignatureInvalid)
  }

  /** `validate_object_with_signature_policy` */
  function ObjectFault(o: CanonicalObject, requireSignatures: bool, verifyPresent: bool, rules: Rules): Option<Invalidity> {
    if o.bodyHash != StableHash(o.body, rules.p) then Some(BodyHashMismatch)
    else if o.objectId != ObjectId(o.kind, o.schemaVersion, o.body, rules.p) then Some(ObjectIdMismatch)
    else if requireSignatures && o.signatures == [] then Some(Unsigned)
    else if verifyPresent && o.signatures != [] then SignatureFault(o, o.signatures, rules)
    else None
  }

  /** `validate_stored_object_with_policy` */
  function StoredObjectFault(repo: string, o: CanonicalObject, rules: Rules): Option<Invalidity> {
    ObjectFault(o, rules.enforceSignatures && repo !in rules.legacyUnsigned, rules.enforceSignatures, rules)
  }

  predicate ValidObject(repo: string, o: CanonicalObject, rules: Rules) {
    StoredObjectFault(repo, o, rules).None?
  }

  predicate ValidBundle(request: PushRequest, rules: Rules) {
    forall i :: 0 <= i < |request.objects| ==> ValidObject(request.repo, request.objects[i], rules)
  }

  predicate Verified(o: CanonicalObject, s: Signature, rules: Rules) {
    rules.check(o.kind, o.schemaVersion, o.body, s) == Verdict(true)
  }

  lemma {:induction false} SignatureFaultNone(o: CanonicalObject, sigs: seq<Signature>, rules: Rules)
    ensures SignatureFault(o, sigs, rules).None? <==> forall i :: 0 <= i < |sigs| ==> Verified(o, sigs[i], rules)
  {
    if sigs != [] { SignatureFaultNone(o, sigs[1..], rules); }
  }

  /**
   Exactly what acceptance means: hashes recomputed, and under enforcement every signature
   verified and, but for a legacy repository, at least one present.
   */
  lemma ValidObjectMeaning(repo: string, o: CanonicalObject, rules: Rules)
    ensures ValidObject(repo, o, rules) <==>
              && o.bodyHash == StableHash(o.body, rules.p)
              && o.objectId == ObjectId(o.kind, o.schemaVersion, o.body, rules.p)
              && (rules.enforceSignatures ==>
                    && (repo in rules.legacyUnsigned || o.signatures != [])
                    && forall i :: 0 <= i < |o.signatures| ==> Verified(o, o.signatures[i], rules))
  {
    SignatureFaultNone(o, o.signatures, rules);
  }

  /** Which fault is found: hashes first, then a missing signature, then the first signature that does not hold. */
  lemma FaultMeaning(repo: string, o: CanonicalObject, rules: Rules)
    ensures var fault := StoredObjectFault(repo, o, rules);
            var body := o.bodyHash == StableHash(o.body, rules.p);
            var hashes := body && o.objectId == ObjectId(o.kind, o.schemaVersion, o.body, rules.p);
            && (fault == Some(BodyHashMismatch) <==> !body)
            && (fault == Some(ObjectIdMismatch) <==> body && !hashes)
            && (fault == Some(Unsigned) <==> hashes && rules.enforceSignatures && repo !in rules.legacyUnsigned && o.signatures == [])
            && (fault == Some(SignatureUnverifiable) <==> hashes && rules.enforceSignatures && exists i: nat :: FailsAt(o, i, Unverifiable, rules))
            && (fault == Some(SignatureInvalid) <==> hashes && rules.enforceSignatures && exists i: nat :: FailsAt(o, i, Verdict(false), rules))
  {
    hide StableHash, ObjectId;
    SignatureFaultMeans(o, 0, rules);
    assert o.signatures[0..] == o.signatures;
  }

  /** The signature at i is the first that does not hold, and this is its check. */
  predicate FailsAt(o: CanonicalObject, i: nat, check: SignatureCheck, rules: Rules) {
    && i < |o.signatures| && (forall j :: 0 <= j < i ==> Verified(o, o.signatures[j], rules))
    && rules.check(o.kind, o.schemaVersion, o.body, o.signatures[i]) == check
  }

  lemma {:induction false} SignatureFaultMeans(o: CanonicalObject, n: nat, rules: Rules)
    requires n <= |o.signatures| && forall j :: 0 <= j < n ==> Verified(o, o.signatures[j], rules)
    ensures var fault := SignatureFault(o, o.signatures[n..], rules);
            && (fault.Some? ==> fault.value == SignatureUnverifiable || fault.value == SignatureInvalid)
            && (fault == Some(SignatureUnverifiable) <==> exists i: nat :: FailsAt(o, i, Unverifiable, rules))
            && (fault == Some(SignatureInvalid) <==> exists i: nat :: FailsAt(o, i, Verdict(false), rules))
    decreases |o.signatures| - n
  {
    if n < |o.signatures| {
      assert o.signatures[n..][1..] == o.signatures[n + 1..];
      if Verified(o, o.signatures[n], rules) {
        SignatureFaultMeans(o, n + 1, rules);
      } else {
        var check := rules.check(o.kind, o.schemaVersion, o.body, o.signatures[n]);
        assert FailsAt(o, n, check, rules);
        forall i: nat, c | FailsAt(o, i, c, rules) && c != Verdict(true) ensures i == n && c == check {}
      }
    }
  }

  /** Two accepted objects with one id agree on kind, schema version and body. */
  lemma ValidObjectsAgree(r1: string, a: CanonicalObject, r2: string, b: CanonicalObject, rules: Rules)
    requires rules.p.Sound() && a.Typed() && b.Typed()
    requires ValidObject(r1, a, rules) && ValidObject(r2, b, rules) && a.objectId == b.objectId
    ensures a.kind == b.kind && a.schemaVersion == b.schemaVersion && a.bodyHash == b.bodyHash
    ensures Equivalent(a.body, b.body)
  {
    ObjectIdDecides(a.kind, a.schemaVersion, a.body, b.kind, b.schemaVersion, b.body, rules.p);
    StableHashDecides(a.body, b.body, rules.p);
  }

  /** The error that stops validation: the first fault, naming its object. */
  function FirstFault(repo: string, objects: seq<CanonicalObject>, rules: Rules): Option<RelayError> {
    if objects == [] then None
    else
      var fault := StoredObjectFault(repo, objects[0], rules);
      if fault.Some? then Some(InvalidObject(objects[0].objectId, fault.value))
      else FirstFault(repo, objects[1..], rules)
  }

  lemma {:induction false} NoFault(repo: string, objects: seq<CanonicalObject>, rules: Rules)
    ensures FirstFault(repo, objects, rules).None?
        <==> forall i :: 0 <= i < |objects| ==> ValidObject(repo, objects[i], rules)
  {
    if objects != [] {
      NoFault(repo, objects[1..], rules);
      if FirstFault(repo, objects, rules).None? {
        forall i | 0 <= i < |objects| ensures ValidObject(repo, objects[i], rules) {
          if i > 0 { assert objects[i] == objects[1..][i - 1]; }
        }
      }
    }
  }

  /** The object at i is the first that is not valid. */
  predicate FirstInvalid(repo: string, objects: seq<CanonicalObject>, i: nat, rules: Rules) {
    i < |objects| && !ValidObject(repo, objects[i], rules) && forall j :: 0 <= j < i ==> ValidObject(repo, objects[j], rules)
  }

  /** The error names the first object that is not valid. */
  lemma {:induction false} FirstFaultMeans(repo: string, objects: seq<CanonicalObject>, i: nat, rules: Rules)
    requires FirstInvalid(repo, objects, i, rules)
    ensures FirstFault(repo, objects, rules) == Some(InvalidObject(objects[i].objectId, StoredObjectFault(repo, objects[i], rules).value))
  {
    hide StoredObjectFault;
    if i > 0 {
      assert ValidObject(repo, objects[0], rules);
      assert forall j :: 0 <= j < |objects| - 1 ==> objects[1..][j] == objects[j + 1];
      FirstFaultMeans(repo, objects[1..], i - 1, rules);
    }
  }

  /** `validated_object_ids`: the first fault stops it; otherwise the distinct ids in order. */
  method ValidatedObjectIds(request: PushRequest, rules: Rules) returns (r: Result<seq<string>>)
    ensures r == match FirstFault(request.repo, request.objects, rules)
                 case Some(error) => Err(error)
                 case None => Ok(FirstOccurrences(Ids(request.objects)))
    ensures r.Ok? <==> ValidBundle(request, rules)
  {
    hide StoredObjectFault, FirstFault, FirstOccurrences, Ids;
    NoFault(request.repo, request.objects, rules);
    NothingKept();
    var seen: set<string> := {};
    var kept: seq<string> := [];
    var objects := request.objects;
    assert objects[0..] == objects;
    for i := 0 to |objects|
      invariant kept == FirstOccurrences(Ids(objects[..i]))
      invariant forall x :: x in seen <==> x in kept
      invariant FirstFault(request.repo, objects, rules) == FirstFault(request.repo, objects[i..], rules)
    {
      var fault := StoredObjectFault(request.repo, objects[i], rules);
      FaultFrom(request.repo, objects, i, rules);
      if fault.Some? {
        return Err(InvalidObject(objects[i].objectId, fault.value));
      }
      var id := objects[i].objectId;
      OneMoreObject(objects, i);
      if id !in seen {
        seen := seen + {id};
        kept := kept + [id];
      }
    }
    assert objects[..|objects|] == objects;
    NoneLeft(request.repo, objects, rules);
    r := Ok(kept);
  }

  lemma NothingKept()
    ensures FirstOccurrences(Ids([])) == []
  {}

  /** The loop looks at one object after the other. */
  lemma FaultFrom(repo: string, objects: seq<CanonicalObject>, i: nat, rules: Rules)
    requires i < |objects|
    ensures var fault := StoredObjectFault(repo, objects[i], rules);
            FirstFault(repo, objects[i..], rules) ==
              if fault.Some? then Some(InvalidObject(objects[i].objectId, fault.value)) else FirstFault(repo, objects[i + 1..], rules)
  {
    hide StoredObjectFault;
    assert objects[i..][1..] == objects[i + 1..];
  }

  lemma NoneLeft(repo: string, objects: seq<CanonicalObject>, rules: Rules)
    ensures FirstFault(repo, objects[|objects|..], rules) == None
  {}

  lemma OneMoreObject(objects: seq<CanonicalObject>, i: nat)
    requires i < |objects|
    ensures var before, id := FirstOccurrences(Ids(objects[..i])), objects[i].objectId;
            FirstOccurrences(Ids(objects[..i + 1])) == if id in before then before else before + [id]
  {
    var ids := Ids(objects[..i + 1]);
    assert ids[..i] == Ids(objects[..i]);
  }
}
