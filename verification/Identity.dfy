/**
 Content-addressed identity: the hash of a canonical text, object ids, the message an
 actor signs, and the canonical bytes of a whole object.
 */
module Identity {
  import opened Text
  import opened Numbers
  import opened Json
  import opened Printing
  import opened Reading

  /** What the model does not look inside: the spelling of floats and SHA-256 in hex. */
  datatype Primitives = Primitives(spell: Spelling, sha: string -> string) {
    /** Spelling is sound and the hash is free of collisions. */
    ghost predicate Sound() {
      && SoundSpelling(spell)
      && forall x, y :: sha(x) == sha(y) ==> x == y
    }
  }

  datatype Signature = Signature(
    algorithm: string,
    publicKey: string,
    signature: string,
    signedAtMs: Option<nat>,
    signerLabel: Option<string>)

  datatype CanonicalObject = CanonicalObject(
    schemaVersion: string,
    kind: string,
    objectId: string,
    createdAtMs: nat,
    body: Value,
    bodyHash: string,
    signatures: seq<Signature>)
  {
    /** What the Rust types already guarantee: u64 fields and maps without repeated keys. */
    predicate Typed() {
      && createdAtMs < TWO_64
      && WellFormed(body)
      && forall i :: 0 <= i < |signatures| && signatures[i].signedAtMs.Some?
           ==> signatures[i].signedAtMs.value < TWO_64
    }
  }

  /** `stable_json_hash` */
  function StableHash(v: Value, p: Primitives): string {
    "sha256:" + p.sha(CanonicalText(v, p.spell))
  }

  /** `canonical_object_id` */
  function ObjectId(kind: string, schemaVersion: string, body: Value, p: Primitives): string {
    StableHash(Obj(Envelope(kind, schemaVersion, body)), p)
  }

  function Envelope(kind: string, schemaVersion: string, body: Value): seq<Member> {
    [Member("kind", Str(kind)), Member("schema_version", Str(schemaVersion)), Member("body", body)]
  }

  /** `signing_message` */
  function SigningMessage(kind: string, schemaVersion: string, body: Value, p: Primitives): string {
    CanonicalText(Obj([Member("body", body),
                       Member("kind", Str(kind)),
                       Member("schema_version", Str(schemaVersion))]), p.spell)
  }

  /** `bundle_hash` */
  function BundleHash(ids: seq<string>, p: Primitives): string {
    StableHash(Obj([Member("object_ids", StrArray(ids))]), p)
  }

  function StrArray(ids: seq<string>): Value {
    Arr(seq(|ids|, i requires 0 <= i < |ids| => Str(ids[i])))
  }

  /** The message behind a signed ref update. */
  function RefMessage(refName: string, expected: Option<string>, newOid: string, p: Primitives): string {
    CanonicalText(Obj(RefMembers(refName, expected, newOid)), p.spell)
  }

  function RefMembers(refName: string, expected: Option<string>, newOid: string): seq<Member> {
    [Member("expected_previous_oid", if expected.Some? then Str(expected.value) else Null),
     Member("new_oid", Str(newOid)),
     Member("ref_name", Str(refName))]
  }

  /* ----- what the texts say ----- */

  /** The fields of an object in the order of their names, these and no others. */
  ghost predicate HoldsFields(v: Value, fields: map<string, Value>) {
    && v.Obj? && SortedMembers(v.members)
    && forall m :: m in v.members <==> m.key in fields && fields[m.key] == m.value
  }

  /** A text that the reader finds to be an object with these fields. */
  ghost predicate ReadsAs(text: string, fields: map<string, Value>, float: FloatReader) {
    Read(text, float).Some? && HoldsFields(Read(text, float).value, fields)
  }

  /** A hash of such a text. */
  ghost predicate HashOf(id: string, fields: map<string, Value>, p: Primitives, float: FloatReader) {
    exists text :: id == "sha256:" + p.sha(text) && ReadsAs(text, fields, float)
  }

  /** The fields are those of the members, in canonical form. */
  ghost predicate FieldsOf(fields: map<string, Value>, ms: seq<Member>) {
    && (forall i :: 0 <= i < |ms| ==> ms[i].key in fields && fields[ms[i].key] == Canonical(ms[i].value))
    && (forall k :: k in fields ==> exists i :: 0 <= i < |ms| && ms[i].key == k)
  }

  lemma CanonicalHoldsFields(ms: seq<Member>, fields: map<string, Value>)
    requires DistinctKeys(ms) && FieldsOf(fields, ms)
    ensures HoldsFields(Canonical(Obj(ms)), fields)
  {
    var cs := CanonicalMembers(ms);
    var r := SortMembers(cs);
    assert Canonical(Obj(ms)) == Obj(r);
    hide Canonical, SortMembers;
    SortMembersSorted(cs);
    forall m ensures m in r <==> m.key in fields && fields[m.key] == m.value {
      assert m in r <==> m in cs;
      if m in cs { var i :| 0 <= i < |cs| && cs[i] == m; }
      if m.key in fields && fields[m.key] == m.value {
        var i :| 0 <= i < |ms| && ms[i].key == m.key;
        assert cs[i] == m;
      }
    }
  }

  lemma FieldsRead(ms: seq<Member>, fields: map<string, Value>, p: Primitives, float: FloatReader)
    requires SoundSpelling(p.spell) && Undoes(float, p.spell)
    requires WellFormed(Obj(ms)) && FieldsOf(fields, ms)
    ensures ReadsAs(CanonicalText(Obj(ms), p.spell), fields, float)
    ensures HashOf(StableHash(Obj(ms), p), fields, p, float)
  {
    hide Canonical, FieldsOf, HoldsFields, Read;
    CanonicalWellFormed(Obj(ms));
    CanonicalHoldsFields(ms, fields);
    ReadPrint(Canonical(Obj(ms)), p.spell, float);
  }

  /** What is signed, and hashed into the object id, says kind, schema version and body, each under its name. */
  lemma SigningMessageSays(kind: string, schemaVersion: string, body: Value, p: Primitives, float: FloatReader)
    requires SoundSpelling(p.spell) && Undoes(float, p.spell) && WellFormed(body)
    ensures var fields := map["kind" := Str(kind), "schema_version" := Str(schemaVersion), "body" := Canonical(body)];
            && ReadsAs(SigningMessage(kind, schemaVersion, body, p), fields, float)
            && HashOf(ObjectId(kind, schemaVersion, body, p), fields, p, float)
  {
    hide ReadsAs, HashOf, CanonicalText;
    var ms, fields := Envelope(kind, schemaVersion, body),
                      map["kind" := Str(kind), "schema_version" := Str(schemaVersion), "body" := Canonical(body)];
    assert ms[0].key == "kind" && ms[1].key == "schema_version" && ms[2].key == "body";
    FieldsRead(ms, fields, p, float);
    var ns := [ms[2], ms[0], ms[1]];
    assert ns[0].key == "body" && ns[1].key == "kind" && ns[2].key == "schema_version";
    FieldsRead(ns, fields, p, float);
  }

  /** The message behind a ref update says which ref is to go from which id to which. */
  lemma RefMessageSays(refName: string, expected: Option<string>, newOid: string, p: Primitives, float: FloatReader)
    requires SoundSpelling(p.spell) && Undoes(float, p.spell)
    ensures ReadsAs(RefMessage(refName, expected, newOid, p),
                    map["ref_name" := Str(refName), "new_oid" := Str(newOid),
                        "expected_previous_oid" := match expected case Some(oid) => Str(oid) case None => Null], float)
  {
    hide ReadsAs, HashOf, CanonicalText;
    var ms := RefMembers(refName, expected, newOid);
    assert ms[0].key == "expected_previous_oid" && ms[1].key == "new_oid" && ms[2].key == "ref_name";
    FieldsRead(ms, map["ref_name" := Str(refName), "new_oid" := Str(newOid),
                       "expected_previous_oid" := match expected case Some(oid) => Str(oid) case None => Null], p, float);
  }

  /** A bundle hash is of the ids in order, under their name. */
  lemma BundleHashSays(ids: seq<string>, p: Primitives, float: FloatReader)
    requires SoundSpelling(p.spell) && Undoes(float, p.spell)
    ensures HashOf(BundleHash(ids, p), map["object_ids" := StrArray(ids)], p, float)
  {
    hide ReadsAs, HashOf, StableHash;
    StrArrayCanonical(ids);
    var ms := [Member("object_ids", StrArray(ids))];
    assert ms[0].key == "object_ids";
    FieldsRead(ms, map["object_ids" := StrArray(ids)], p, float);
  }

  lemma StrArrayCanonical(ids: seq<string>)
    ensures WellFormed(StrArray(ids)) && Canonical(StrArray(ids)) == StrArray(ids)
  {
    var items := StrArray(ids).items;
    assert CanonicalItems(items) == items;
  }

  /* ----- hashes decide equivalence ----- */

  lemma StableHashDecides(a: Value, b: Value, p: Primitives)
    requires p.Sound() && WellFormed(a) && WellFormed(b)
    ensures StableHash(a, p) == StableHash(b, p) <==> Equivalent(a, b)
  {
    CanonicalTextDecides(a, b, p.spell);
    var x, y := p.sha(CanonicalText(a, p.spell)), p.sha(CanonicalText(b, p.spell));
    StripPrefixIff("sha256:", x, y);
  }

  lemma StripPrefixIff(h: string, u: string, v: string)
    ensures h + u == h + v <==> u == v
  {
    assert u == (h + u)[|h|..] && v == (h + v)[|h|..];
  }

  /** Objects with the same keys in the same places compare place by place. */
  lemma ParallelMembers(ms: seq<Member>, ns: seq<Member>)
    requires |ms| == |ns| && DistinctKeys(ms)
    requires forall i :: 0 <= i < |ms| ==> ms[i].key == ns[i].key
    ensures Equivalent(Obj(ms), Obj(ns)) <==> forall i :: 0 <= i < |ms| ==> Equivalent(ms[i].value, ns[i].value)
  {
    assert KeySet(ms) == KeySet(ns);
    if forall i :: 0 <= i < |ms| ==> Equivalent(ms[i].value, ns[i].value) {
      forall i, j | 0 <= i < |ms| && 0 <= j < |ns| && ms[i].key == ns[j].key
        ensures Equivalent(ms[i].value, ns[j].value)
      {
        assert ms[j].key == ns[j].key;
        assert i == j;
      }
    }
  }

  /** An object id fixes kind, schema version and, up to equivalence, the body. */
  lemma ObjectIdDecides(k1: string, s1: string, b1: Value, k2: string, s2: string, b2: Value, p: Primitives)
    requires p.Sound() && WellFormed(b1) && WellFormed(b2)
    ensures ObjectId(k1, s1, b1, p) == ObjectId(k2, s2, b2, p)
        <==> k1 == k2 && s1 == s2 && Equivalent(b1, b2)
  {
    hide StableHash;
    var ms, ns := Envelope(k1, s1, b1), Envelope(k2, s2, b2);
    StableHashDecides(Obj(ms), Obj(ns), p);
    ParallelMembers(ms, ns);
    assert Equivalent(ms[0].value, ns[0].value) <==> k1 == k2;
    assert Equivalent(ms[1].value, ns[1].value) <==> s1 == s2;
    assert Equivalent(ms[2].value, ns[2].value) <==> Equivalent(b1, b2);
  }

  lemma RotatedMembers(x: Member, y: Member, z: Member)
    requires DistinctKeys([x, y, z]) && WellFormed(x.value) && WellFormed(y.value) && WellFormed(z.value)
    ensures Equivalent(Obj([x, y, z]), Obj([z, x, y]))
  {
    var ms, ns := [x, y, z], [z, x, y];
    EquivalentReflexive(x.value);
    EquivalentReflexive(y.value);
    EquivalentReflexive(z.value);
    forall k ensures k in KeySet(ms) <==> k in KeySet(ns) {
      if k == x.key { assert ms[0].key == k && ns[1].key == k; }
      if k == y.key { assert ms[1].key == k && ns[2].key == k; }
      if k == z.key { assert ms[2].key == k && ns[0].key == k; }
    }
    forall i, j | 0 <= i < 3 && 0 <= j < 3 && ms[i].key == ns[j].key
      ensures Equivalent(ms[i].value, ns[j].value)
    {
      assert ns[j] == ms[(j + 2) % 3];
      assert i == (j + 2) % 3;
    }
  }

  /** The signed message is, character for character, the text whose hash is the object id. */
  lemma SigningMessageIsPreimage(kind: string, schemaVersion: string, body: Value, p: Primitives)
    requires WellFormed(body)
    ensures ObjectId(kind, schemaVersion, body, p) == "sha256:" + p.sha(SigningMessage(kind, schemaVersion, body, p))
  {
    hide Canonical;
    var ms := Envelope(kind, schemaVersion, body);
    RotatedMembers(ms[0], ms[1], ms[2]);
    CanonicalDecides(Obj(ms), Obj([ms[2], ms[0], ms[1]]));
  }

  lemma StrArrayEquivalent(a: seq<string>, b: seq<string>)
    ensures Equivalent(StrArray(a), StrArray(b)) <==> a == b
  {
    if Equivalent(StrArray(a), StrArray(b)) {
      var xs, ys := StrArray(a).items, StrArray(b).items;
      forall i | 0 <= i < |a| ensures a[i] == b[i] { assert Equivalent(xs[i], ys[i]); }
    }
  }

  /** A bundle hash fixes the list of ids, in order. */
  lemma BundleHashInjective(a: seq<string>, b: seq<string>, p: Primitives)
    requires p.Sound()
    ensures BundleHash(a, p) == BundleHash(b, p) <==> a == b
  {
    var ms, ns := [Member("object_ids", StrArray(a))], [Member("object_ids", StrArray(b))];
    StableHashDecides(Obj(ms), Obj(ns), p);
    StrArrayEquivalent(a, b);
    ParallelMembers(ms, ns);
    assert Equivalent(ms[0].value, ns[0].value) <==> a == b;
  }

  /** A signature over a ref update covers the ref, the expected old id and the new id. */
  lemma RefMessageInjective(r1: string, e1: Option<string>, n1: string, r2: string, e2: Option<string>, n2: string, p: Primitives)
    requires p.Sound() && RefMessage(r1, e1, n1, p) == RefMessage(r2, e2, n2, p)
    ensures r1 == r2 && e1 == e2 && n1 == n2
  {
    hide CanonicalText;
    var ms, ns := RefMembers(r1, e1, n1), RefMembers(r2, e2, n2);
    CanonicalTextDecides(Obj(ms), Obj(ns), p.spell);
    assert Equivalent(ms[0].value, ns[0].value);
    assert Equivalent(ms[1].value, ns[1].value);
    assert Equivalent(ms[2].value, ns[2].value);
  }

  /* ----- canonical bytes of an object ----- */

  function SignatureMembers(s: Signature): seq<Member> {
    [Member("algorithm", Str(s.algorithm)),
     Member("public_key", Str(s.publicKey)),
     Member("signature", Str(s.signature))]
    + (if s.signedAtMs.Some? then [Member("signed_at_ms", Num(PosInt(s.signedAtMs.value)))] else [])
    + (if s.signerLabel.Some? then [Member("signer_label", Str(s.signerLabel.value))] else [])
  }

  function SignatureArray(sigs: seq<Signature>): Value {
    Arr(seq(|sigs|, i requires 0 <= i < |sigs| => Obj(SignatureMembers(sigs[i]))))
  }

  /** `serde_json::to_value(object)`: empty signatures are not written. */
  function ObjectMembers(o: CanonicalObject): seq<Member> {
    [Member("schema_version", Str(o.schemaVersion)),
     Member("kind", Str(o.kind)),
     Member("object_id", Str(o.objectId)),
     Member("created_at_ms", Num(PosInt(o.createdAtMs))),
     Member("body", o.body),
     Member("body_hash", Str(o.bodyHash))]
    + (if o.signatures == [] then [] else [Member("signatures", SignatureArray(o.signatures))])
  }

  /** `canonical_object_bytes` */
  function ObjectBytes(o: CanonicalObject, p: Primitives): string {
    CanonicalText(Obj(ObjectMembers(o)), p.spell)
  }

  /** Equal in every field, the bodies up to equivalence. */
  predicate SameObject(a: CanonicalObject, b: CanonicalObject) {
    a.(body := Null) == b.(body := Null) && Equivalent(a.body, b.body)
  }

  /** Some member with this key, when there is one. */
  lemma {:induction false} LookupFinds(ms: seq<Member>, key: string) returns (i: int)
    ensures Lookup(ms, key).Some? ==> 0 <= i < |ms| && ms[i] == Member(key, Lookup(ms, key).value)
    ensures Lookup(ms, key).None? ==> key !in KeySet(ms)
  {
    i := 0;
    if ms != [] && ms[0].key != key {
      i := LookupFinds(ms[1..], key);
      if Lookup(ms, key).None? {
        forall j | 0 <= j < |ms| ensures ms[j].key != key {
          if j > 0 { assert ms[j] == ms[1..][j - 1]; assert ms[1..][j - 1].key in KeySet(ms[1..]); }
        }
      }
      i := i + 1;
    }
  }

  /** Looking a name up in an object finds its member. */
  lemma GetMeans(v: Value, key: string, x: Value)
    requires WellFormed(v)
    ensures Get(v, key) == Some(x) <==> v.Obj? && Member(key, x) in v.members
  {
    if v.Obj? {
      var i := LookupFinds(v.members, key);
      if Member(key, x) in v.members {
        var j :| 0 <= j < |v.members| && v.members[j] == Member(key, x);
        assert v.members[j].key in KeySet(v.members);
      }
    }
  }

  predicate OptionEquivalent(a: Option<Value>, b: Option<Value>) {
    if a.Some? && b.Some? then Equivalent(a.value, b.value) else a == b
  }

  lemma EquivalentLookup(ms: seq<Member>, ns: seq<Member>, key: string)
    requires Equivalent(Obj(ms), Obj(ns))
    ensures OptionEquivalent(Lookup(ms, key), Lookup(ns, key))
  {
    var i := LookupFinds(ms, key);
    var j := LookupFinds(ns, key);
    assert Lookup(ms, key).Some? ==> ms[i].key in KeySet(ms);
    assert Lookup(ns, key).Some? ==> ns[j].key in KeySet(ns);
  }

  lemma {:induction false} LookupAt(ms: seq<Member>, n: nat)
    requires n < |ms| && forall i :: 0 <= i < n ==> ms[i].key != ms[n].key
    ensures Lookup(ms, ms[n].key) == Some(ms[n].value)
  {
    if n > 0 {
      assert ms[1..][n - 1] == ms[n];
      LookupAt(ms[1..], n - 1);
    }
  }

  lemma {:induction false} LookupAbsent(ms: seq<Member>, key: string)
    requires forall i :: 0 <= i < |ms| ==> ms[i].key != key
    ensures Lookup(ms, key) == None
  {
    if ms != [] { LookupAbsent(ms[1..], key); }
  }

  lemma SignatureLookups(s: Signature)
    ensures var ms := SignatureMembers(s);
            && Lookup(ms, "algorithm") == Some(Str(s.algorithm))
            && Lookup(ms, "public_key") == Some(Str(s.publicKey))
            && Lookup(ms, "signature") == Some(Str(s.signature))
            && Lookup(ms, "signed_at_ms") == (if s.signedAtMs.Some? then Some(Num(PosInt(s.signedAtMs.value))) else None)
            && Lookup(ms, "signer_label") == (if s.signerLabel.Some? then Some(Str(s.signerLabel.value)) else None)
  {
    var ms := SignatureMembers(s);
    LookupAt(ms, 0);
    LookupAt(ms, 1);
    LookupAt(ms, 2);
    if s.signedAtMs.Some? { LookupAt(ms, 3); } else { LookupAbsent(ms, "signed_at_ms"); }
    if s.signerLabel.Some? { LookupAt(ms, |ms| - 1); } else { LookupAbsent(ms, "signer_label"); }
  }

  lemma SignatureMembersWellFormed(s: Signature)
    requires s.signedAtMs.Some? ==> s.signedAtMs.value < TWO_64
    ensures WellFormed(Obj(SignatureMembers(s)))
  {}

  lemma SignatureMembersDecide(s: Signature, t: Signature)
    requires s.signedAtMs.Some? ==> s.signedAtMs.value < TWO_64
    requires t.signedAtMs.Some? ==> t.signedAtMs.value < TWO_64
    ensures Equivalent(Obj(SignatureMembers(s)), Obj(SignatureMembers(t))) <==> s == t
  {
    SignatureMembersWellFormed(s);
    EquivalentReflexive(Obj(SignatureMembers(s)));
    if Equivalent(Obj(SignatureMembers(s)), Obj(SignatureMembers(t))) { EquivalentSignatures(s, t); }
  }

  lemma EquivalentSignatures(s: Signature, t: Signature)
    requires Equivalent(Obj(SignatureMembers(s)), Obj(SignatureMembers(t)))
    ensures s == t
  {
    SignatureLookups(s);
    SignatureLookups(t);
    var ms, ns := SignatureMembers(s), SignatureMembers(t);
    EquivalentLookup(ms, ns, "algorithm");
    EquivalentLookup(ms, ns, "public_key");
    EquivalentLookup(ms, ns, "signature");
    EquivalentLookup(ms, ns, "signed_at_ms");
    EquivalentLookup(ms, ns, "signer_label");
  }

  lemma SignatureArrayDecides(a: seq<Signature>, b: seq<Signature>)
    requires forall i :: 0 <= i < |a| && a[i].signedAtMs.Some? ==> a[i].signedAtMs.value < TWO_64
    requires forall i :: 0 <= i < |b| && b[i].signedAtMs.Some? ==> b[i].signedAtMs.value < TWO_64
    ensures WellFormed(SignatureArray(a))
    ensures Equivalent(SignatureArray(a), SignatureArray(b)) <==> a == b
  {
    var xs, ys := SignatureArray(a).items, SignatureArray(b).items;
    forall i | 0 <= i < |a| ensures WellFormed(xs[i]) { SignatureMembersWellFormed(a[i]); }
    forall i | 0 <= i < |a| && i < |b| ensures Equivalent(xs[i], ys[i]) <==> a[i] == b[i] {
      SignatureMembersDecide(a[i], b[i]);
    }
    if Equivalent(SignatureArray(a), SignatureArray(b)) {
      forall i | 0 <= i < |a| ensures a[i] == b[i] { assert Equivalent(xs[i], ys[i]); }
    }
  }

  lemma ObjectMembersWellFormed(o: CanonicalObject)
    requires o.Typed()
    ensures WellFormed(Obj(ObjectMembers(o)))
  {
    SignatureArrayDecides(o.signatures, o.signatures);
  }

  lemma ObjectLookups(o: CanonicalObject)
    ensures var ms := ObjectMembers(o);
            && Lookup(ms, "schema_version") == Some(Str(o.schemaVersion))
            && Lookup(ms, "kind") == Some(Str(o.kind))
            && Lookup(ms, "object_id") == Some(Str(o.objectId))
            && Lookup(ms, "created_at_ms") == Some(Num(PosInt(o.createdAtMs)))
            && Lookup(ms, "body") == Some(o.body)
            && Lookup(ms, "body_hash") == Some(Str(o.bodyHash))
            && Lookup(ms, "signatures") == (if o.signatures == [] then None else Some(SignatureArray(o.signatures)))
  {
    var ms := ObjectMembers(o);
    LookupAt(ms, 0);
    LookupAt(ms, 1);
    LookupAt(ms, 2);
    LookupAt(ms, 3);
    LookupAt(ms, 4);
    LookupAt(ms, 5);
    if o.signatures == [] { LookupAbsent(ms, "signatures"); } else { LookupAt(ms, 6); }
  }

  lemma SameMembersSameObject(a: CanonicalObject, b: CanonicalObject)
    requires a.Typed() && b.Typed()
    requires Equivalent(Obj(ObjectMembers(a)), Obj(ObjectMembers(b)))
    ensures SameObject(a, b)
  {
    var ms, ns := ObjectMembers(a), ObjectMembers(b);
    ObjectLookups(a);
    ObjectLookups(b);
    EquivalentLookup(ms, ns, "schema_version");
    EquivalentLookup(ms, ns, "kind");
    EquivalentLookup(ms, ns, "object_id");
    EquivalentLookup(ms, ns, "created_at_ms");
    EquivalentLookup(ms, ns, "body");
    EquivalentLookup(ms, ns, "body_hash");
    EquivalentLookup(ms, ns, "signatures");
    SignatureArrayDecides(a.signatures, b.signatures);
  }

  lemma SameObjectSameMembers(a: CanonicalObject, b: CanonicalObject)
    requires a.Typed() && b.Typed() && SameObject(a, b)
    ensures Equivalent(Obj(ObjectMembers(a)), Obj(ObjectMembers(b)))
  {
    var ms, ns := ObjectMembers(a), ObjectMembers(b);
    assert |ms| == |ns| && forall i :: 0 <= i < |ms| ==> ms[i].key == ns[i].key;
    assert KeySet(ms) == KeySet(ns);
    SignatureArrayDecides(a.signatures, b.signatures);
    forall i, j | 0 <= i < |ms| && 0 <= j < |ns| && ms[i].key == ns[j].key
      ensures Equivalent(ms[i].value, ns[j].value)
    {
      ObjectMembersWellFormed(b);
      assert i == j;
    }
  }

  /** Canonical bytes agree exactly on objects equal in every field, bodies up to equivalence. */
  lemma ObjectBytesDecide(a: CanonicalObject, b: CanonicalObject, p: Primitives)
    requires p.Sound() && a.Typed() && b.Typed()
    ensures ObjectBytes(a, p) == ObjectBytes(b, p) <==> SameObject(a, b)
  {
    ObjectMembersWellFormed(a);
    ObjectMembersWellFormed(b);
    CanonicalTextDecides(Obj(ObjectMembers(a)), Obj(ObjectMembers(b)), p.spell);
    if ObjectBytes(a, p) == ObjectBytes(b, p) { SameMembersSameObject(a, b); }
    if SameObject(a, b) { SameObjectSameMembers(a, b); }
  }

  /* ----- what the bytes of an object say ----- */

  function OptionalField(name: string, v: Option<Value>): map<string, Value> {
    if v.Some? then map[name := v.value] else map[]
  }

  /** The fields of a signature, an unset one left out. */
  function SignatureFields(s: Signature): map<string, Value> {
    map["public_key" := Str(s.publicKey), "algorithm" := Str(s.algorithm), "signature" := Str(s.signature)]
    + OptionalField("signer_label", match s.signerLabel case Some(l) => Some(Str(l)) case None => None)
    + OptionalField("signed_at_ms", match s.signedAtMs case Some(ms) => Some(Num(PosInt(ms))) case None => None)
  }

  /** The fields of an object; the list of signatures is left out when empty. */
  function ObjectFields(o: CanonicalObject): map<string, Value> {
    map["object_id" := Str(o.objectId), "kind" := Str(o.kind), "schema_version" := Str(o.schemaVersion),
        "body" := Canonical(o.body), "body_hash" := Str(o.bodyHash), "created_at_ms" := Num(PosInt(o.createdAtMs))]
    + OptionalField("signatures", if o.signatures == [] then None else Some(Canonical(SignatureArray(o.signatures))))
  }

  lemma SignatureKeysDiffer(s: Signature)
    ensures DistinctKeys(SignatureMembers(s))
  {}

  lemma ScalarsCanonical(s: string, n: nat)
    ensures Canonical(Str(s)) == Str(s) && Canonical(Num(PosInt(n))) == Num(PosInt(n))
  {}

  lemma SignatureFieldsOf(s: Signature)
    ensures FieldsOf(SignatureFields(s), SignatureMembers(s))
  {
    hide Canonical;
    var ms := SignatureMembers(s);
    forall t ensures Canonical(Str(t)) == Str(t) { ScalarsCanonical(t, 0); }
    forall n ensures Canonical(Num(PosInt(n))) == Num(PosInt(n)) { ScalarsCanonical("", n); }
    assert ms[0].key == "algorithm" && ms[1].key == "public_key" && ms[2].key == "signature";
    assert s.signedAtMs.Some? ==> ms[3].key == "signed_at_ms";
    assert s.signerLabel.Some? ==> ms[|ms| - 1].key == "signer_label";
  }

  lemma ObjectFieldsOf(o: CanonicalObject)
    ensures FieldsOf(ObjectFields(o), ObjectMembers(o))
  {
    hide Canonical, SignatureArray;
    var ms := ObjectMembers(o);
    forall t, n ensures Canonical(Str(t)) == Str(t) && Canonical(Num(PosInt(n))) == Num(PosInt(n)) { ScalarsCanonical(t, n); }
    assert ms[0].key == "schema_version" && ms[1].key == "kind" && ms[2].key == "object_id";
    assert ms[3].key == "created_at_ms" && ms[4].key == "body" && ms[5].key == "body_hash";
    assert o.signatures != [] ==> ms[6].key == "signatures";
  }

  /** An array of objects holding these signatures, in order. */
  ghost predicate HoldsSignatures(v: Value, sigs: seq<Signature>) {
    v.Arr? && |v.items| == |sigs| && forall i :: 0 <= i < |sigs| ==> HoldsFields(v.items[i], SignatureFields(sigs[i]))
  }

  lemma SignatureArrayHolds(sigs: seq<Signature>)
    ensures HoldsSignatures(Canonical(SignatureArray(sigs)), sigs)
  {
    hide HoldsFields, SignatureFields, SignatureMembers, FieldsOf, DistinctKeys;
    forall i | 0 <= i < |sigs| ensures HoldsFields(Canonical(SignatureArray(sigs)).items[i], SignatureFields(sigs[i])) {
      SignatureKeysDiffer(sigs[i]);
      SignatureFieldsOf(sigs[i]);
      CanonicalHoldsFields(SignatureMembers(sigs[i]), SignatureFields(sigs[i]));
    }
  }

  /** The canonical bytes say each field of the object, and each of its signatures, under its name. */
  lemma ObjectBytesSay(o: CanonicalObject, p: Primitives, float: FloatReader)
    requires SoundSpelling(p.spell) && Undoes(float, p.spell) && o.Typed()
    ensures ReadsAs(ObjectBytes(o, p), ObjectFields(o), float)
    ensures HoldsSignatures(Canonical(SignatureArray(o.signatures)), o.signatures)
  {
    hide ReadsAs, HashOf, CanonicalText, ObjectMembers, ObjectFields, Canonical, HoldsSignatures;
    ObjectMembersWellFormed(o);
    ObjectFieldsOf(o);
    FieldsRead(ObjectMembers(o), ObjectFields(o), p, float);
    SignatureArrayHolds(o.signatures);
  }
}
