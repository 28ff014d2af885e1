/**
 JSON values, their canonical form, and the equivalence that the form decides.

 An object is the sequence of its members in the order its map yields them; serde_json's
 maps never repeat a key, which `WellFormed` states.
 */
module Json {
  import opened Text
  import opened Numbers

  datatype Value =
    | Null
    | Bool(b: bool)
    | Num(n: Number)
    | Str(s: string)
    | Arr(items: seq<Value>)
    | Obj(members: seq<Member>)

  datatype Member = Member(key: string, value: Value)

  predicate DistinctKeys(ms: seq<Member>) {
    forall i, j :: 0 <= i < j < |ms| ==> ms[i].key != ms[j].key
  }

  predicate WellFormed(v: Value) {
    match v
    case Num(n) => n.Valid()
    case Arr(items) => forall i :: 0 <= i < |items| ==> WellFormed(items[i])
    case Obj(ms) => DistinctKeys(ms) && forall i :: 0 <= i < |ms| ==> WellFormed(ms[i].value)
    case _ => true
  }

  /** `value.get(key)` on an object. */
  function Get(v: Value, key: string): Option<Value> {
    if v.Obj? then Lookup(v.members, key) else None
  }

  function Lookup(ms: seq<Member>, key: string): Option<Value> {
    if ms == [] then None
    else if ms[0].key == key then Some(ms[0].value)
    else Lookup(ms[1..], key)
  }

  /* ----- canonical form ----- */

  predicate SortedMembers(ms: seq<Member>) {
    forall i, j :: 0 <= i < j < |ms| ==> Before(ms[i].key, ms[j].key)
  }

  /** Insertion before the first member whose key is not smaller. */
  function InsertMember(m: Member, ms: seq<Member>): (r: seq<Member>)
    ensures |r| == |ms| + 1
    ensures forall x :: x in r <==> x == m || x in ms
  {
    if ms == [] then [m]
    else if AtMost(m.key, ms[0].key) then [m] + ms
    else
      var tail := InsertMember(m, ms[1..]);
      assert forall x :: x in ms <==> x == ms[0] || x in ms[1..];
      [ms[0]] + tail
  }

  function SortMembers(ms: seq<Member>): (r: seq<Member>)
    ensures |r| == |ms|
    ensures forall x :: x in r <==> x in ms
  {
    if ms == [] then [] else InsertMember(ms[0], SortMembers(ms[1..]))
  }

  /** `canonical_json`: fold numbers, sort members by key, at every depth. */
  function Canonical(v: Value): Value
    decreases v, 1
  {
    match v
    case Num(n) => Num(CanonicalNumber(n))
    case Arr(items) => Arr(CanonicalItems(items))
    case Obj(ms) => Obj(SortMembers(CanonicalMembers(ms)))
    case _ => v
  }

  function CanonicalItems(items: seq<Value>): (r: seq<Value>)
    ensures |r| == |items|
    ensures forall i :: 0 <= i < |r| ==> r[i] == Canonical(items[i])
    decreases items, 0
  {
    if items == [] then [] else [Canonical(items[0])] + CanonicalItems(items[1..])
  }

  function CanonicalMembers(ms: seq<Member>): (r: seq<Member>)
    ensures |r| == |ms|
    ensures forall i :: 0 <= i < |r| ==> r[i] == Member(ms[i].key, Canonical(ms[i].value))
    decreases ms, 0
  {
    if ms == [] then []
    else [Member(ms[0].key, Canonical(ms[0].value))] + CanonicalMembers(ms[1..])
  }

  /* ----- the equivalence ----- */

  /** The values differ only in member order and in how a folded number is spelled, at any depth. */
  predicate Equivalent(a: Value, b: Value) {
    match (a, b)
    case (Num(m), Num(n)) => NumberEquivalent(m, n)
    case (Arr(xs), Arr(ys)) =>
      |xs| == |ys| && forall i :: 0 <= i < |xs| ==> Equivalent(xs[i], ys[i])
    case (Obj(ms), Obj(ns)) =>
      && KeySet(ms) == KeySet(ns)
      && forall i, j :: 0 <= i < |ms| && 0 <= j < |ns| && ms[i].key == ns[j].key
           ==> Equivalent(ms[i].value, ns[j].value)
    case _ => a == b
  }

  function KeySet(ms: seq<Member>): set<string> {
    set i | 0 <= i < |ms| :: ms[i].key
  }

  lemma InsertKeepsSorted(m: Member, ms: seq<Member>)
    requires SortedMembers(ms)
    requires forall i :: 0 <= i < |ms| ==> ms[i].key != m.key
    ensures SortedMembers(InsertMember(m, ms))
  {
    if ms != [] {
      if AtMost(m.key, ms[0].key) {
        forall i | 0 <= i < |ms| ensures Before(m.key, ms[i].key) {
          if i > 0 { BeforeTransitive(m.key, ms[0].key, ms[i].key); }
        }
      } else {
        AtMostTotal(m.key, ms[0].key);
        InsertKeepsSorted(m, ms[1..]);
        var tail := InsertMember(m, ms[1..]);
        forall j | 0 <= j < |tail| ensures Before(ms[0].key, tail[j].key) {
          assert tail[j] in tail;
        }
      }
    }
  }

  lemma {:induction false} SortMembersSorted(ms: seq<Member>)
    requires DistinctKeys(ms)
    ensures SortedMembers(SortMembers(ms))
  {
    if ms != [] {
      SortMembersSorted(ms[1..]);
      var tail := SortMembers(ms[1..]);
      forall i | 0 <= i < |tail| ensures tail[i].key != ms[0].key {
        assert tail[i] in tail;
        assert tail[i] in ms[1..];
      }
      InsertKeepsSorted(ms[0], tail);
    }
  }

  lemma SomeMember(ms: seq<Member>)
    ensures ms != [] ==> exists m :: m in ms
  {
    if ms != [] { assert ms[0] in ms; }
  }

  /** A sorted member list is determined by the set of its members. */
  lemma {:induction false} SortedMembersUnique(a: seq<Member>, b: seq<Member>)
    requires SortedMembers(a) && SortedMembers(b)
    requires forall m :: m in a <==> m in b
    ensures a == b
  {
    if a == [] {
      SomeMember(b);
    } else {
      assert a[0] in b;
      assert b[0] in a;
      var j :| 0 <= j < |b| && b[j] == a[0];
      var i :| 0 <= i < |a| && a[i] == b[0];
      if i > 0 || j > 0 {
        AtMostAntisymmetric(a[0].key, b[0].key);
      }
      assert a == [a[0]] + a[1..] && b == [b[0]] + b[1..];
      forall m ensures m in a[1..] <==> m in b[1..] {
        assert m in a <==> m in b;
        assert m in a <==> m == a[0] || m in a[1..];
        assert m in b <==> m == b[0] || m in b[1..];
      }
      SortedMembersUnique(a[1..], b[1..]);
    }
  }

  /* ----- the canonical form decides the equivalence ----- */

  lemma {:induction false} CanonicalWellFormed(v: Value)
    requires WellFormed(v)
    ensures WellFormed(Canonical(v))
  {
    match v {
      case Num(n) => CanonicalNumberValid(n);
      case Arr(items) =>
        forall i | 0 <= i < |items| ensures WellFormed(Canonical(items[i])) {
          CanonicalWellFormed(items[i]);
        }
      case Obj(ms) =>
        var cs := CanonicalMembers(ms);
        SortMembersSorted(cs);
        var r := SortMembers(cs);
        forall i | 0 <= i < |r| ensures WellFormed(r[i].value) {
          assert r[i] in r;
          assert r[i] in cs;
          var j :| 0 <= j < |cs| && cs[j] == r[i];
          CanonicalWellFormed(ms[j].value);
        }
      case _ =>
    }
  }

  /** Two values have one canonical form exactly when they are equivalent. */
  lemma {:induction false} CanonicalDecides(a: Value, b: Value)
    requires WellFormed(a) && WellFormed(b)
    ensures Canonical(a) == Canonical(b) <==> Equivalent(a, b)
    decreases a
  {
    match (a, b) {
      case (Num(m), Num(n)) => CanonicalNumberEqual(m, n);
      case (Arr(xs), Arr(ys)) => CanonicalDecidesArrays(xs, ys, a, b);
      case (Obj(ms), Obj(ns)) =>
        forall i, j | 0 <= i < |ms| && 0 <= j < |ns|
          ensures Canonical(ms[i].value) == Canonical(ns[j].value) <==> Equivalent(ms[i].value, ns[j].value)
        {
          CanonicalDecides(ms[i].value, ns[j].value);
        }
        SortMembersSorted(CanonicalMembers(ms));
        SortMembersSorted(CanonicalMembers(ns));
        if Canonical(a) == Canonical(b) {
          SameFormKeys(ms, ns);
          SameFormKeys(ns, ms);
          forall i, j | 0 <= i < |ms| && 0 <= j < |ns| && ms[i].key == ns[j].key
            ensures Equivalent(ms[i].value, ns[j].value)
          {
            SameFormValues(ms, ns, i, j);
          }
        }
        if Equivalent(a, b) { SameMembersSameForm(ms, ns); }
      case _ =>
    }
  }

  lemma CanonicalDecidesArrays(xs: seq<Value>, ys: seq<Value>, a: Value, b: Value)
    requires a == Arr(xs) && b == Arr(ys) && WellFormed(a) && WellFormed(b)
    ensures Canonical(a) == Canonical(b) <==> Equivalent(a, b)
    decreases a, 0
  {
    if |xs| == |ys| {
      forall i | 0 <= i < |xs| ensures Canonical(xs[i]) == Canonical(ys[i]) <==> Equivalent(xs[i], ys[i]) {
        CanonicalDecides(xs[i], ys[i]);
      }
      var cx, cy := CanonicalItems(xs), CanonicalItems(ys);
      if cx == cy {
        forall i | 0 <= i < |xs| ensures Equivalent(xs[i], ys[i]) { assert cx[i] == cy[i]; }
      }
    } else {
      assert |CanonicalItems(xs)| != |CanonicalItems(ys)|;
    }
  }

  /** The member of ns whose canonical form is that of ms[i]. */
  lemma Counterpart(ms: seq<Member>, ns: seq<Member>, i: nat) returns (j: nat)
    requires i < |ms|
    requires SortMembers(CanonicalMembers(ms)) == SortMembers(CanonicalMembers(ns))
    ensures j < |ns| && ns[j].key == ms[i].key
    ensures Canonical(ns[j].value) == Canonical(ms[i].value)
  {
    var cm, cn := CanonicalMembers(ms), CanonicalMembers(ns);
    assert cm[i] in SortMembers(cm);
    assert cm[i] in cn;
    j :| 0 <= j < |cn| && cn[j] == cm[i];
  }

  lemma SameFormKeys(ms: seq<Member>, ns: seq<Member>)
    requires SortMembers(CanonicalMembers(ms)) == SortMembers(CanonicalMembers(ns))
    ensures KeySet(ms) <= KeySet(ns)
  {
    forall k | k in KeySet(ms) ensures k in KeySet(ns) {
      var i :| 0 <= i < |ms| && ms[i].key == k;
      var j := Counterpart(ms, ns, i);
      assert ns[j].key == k;
    }
  }

  lemma SameFormValues(ms: seq<Member>, ns: seq<Member>, i: nat, j: nat)
    requires DistinctKeys(ns)
    requires SortMembers(CanonicalMembers(ms)) == SortMembers(CanonicalMembers(ns))
    requires i < |ms| && j < |ns| && ms[i].key == ns[j].key
    ensures Canonical(ms[i].value) == Canonical(ns[j].value)
  {
    var k := Counterpart(ms, ns, i);
    assert k == j;
  }

  lemma SameMembersSameForm(ms: seq<Member>, ns: seq<Member>)
    requires KeySet(ms) == KeySet(ns)
    requires forall i, j :: 0 <= i < |ms| && 0 <= j < |ns| && ms[i].key == ns[j].key
               ==> Canonical(ms[i].value) == Canonical(ns[j].value)
    requires SortedMembers(SortMembers(CanonicalMembers(ms)))
    requires SortedMembers(SortMembers(CanonicalMembers(ns)))
    ensures SortMembers(CanonicalMembers(ms)) == SortMembers(CanonicalMembers(ns))
  {
    var cm, cn := CanonicalMembers(ms), CanonicalMembers(ns);
    forall i | 0 <= i < |cm| ensures cm[i] in cn {
      assert ms[i].key in KeySet(ns);
      var j :| 0 <= j < |ns| && ns[j].key == ms[i].key;
      assert cn[j] == cm[i];
    }
    forall j | 0 <= j < |cn| ensures cn[j] in cm {
      assert ns[j].key in KeySet(ms);
      var i :| 0 <= i < |ms| && ms[i].key == ns[j].key;
      assert cm[i] == cn[j];
    }
    SortedMembersUnique(SortMembers(cm), SortMembers(cn));
  }

  lemma {:induction false} EquivalentReflexive(v: Value)
    requires WellFormed(v)
    ensures Equivalent(v, v)
  {
    CanonicalDecides(v, v);
  }

  /** Canonical form is idempotent, so reading back canonical bytes and hashing again agrees. */
  lemma {:induction false} CanonicalIdempotent(v: Value)
    requires WellFormed(v)
    ensures Canonical(Canonical(v)) == Canonical(v)
  {
    match v {
      case Num(n) => CanonicalNumberPreservesValue(n);
      case Arr(items) =>
        var cs := CanonicalItems(items);
        forall i | 0 <= i < |items| ensures Canonical(cs[i]) == cs[i] { CanonicalIdempotent(items[i]); }
        assert CanonicalItems(cs) == cs;
      case Obj(ms) =>
        var cs := CanonicalMembers(ms);
        SortMembersSorted(cs);
        var r := SortMembers(cs);
        forall i | 0 <= i < |r| ensures Canonical(r[i].value) == r[i].value {
          assert r[i] in r;
          assert r[i] in cs;
          var j :| 0 <= j < |cs| && cs[j] == r[i];
          CanonicalIdempotent(ms[j].value);
        }
        assert CanonicalMembers(r) == r;
        SortMembersSorted(r);
        SortedMembersUnique(SortMembers(r), r);
      case _ =>
    }
  }

  /** Members ascend by key and numbers are folded, at every depth. */
  predicate InCanonicalForm(v: Value) {
    match v
    case Num(n) => CanonicalNumber(n) == n
    case Arr(items) => forall i :: 0 <= i < |items| ==> InCanonicalForm(items[i])
    case Obj(ms) => SortedMembers(ms) && forall i :: 0 <= i < |ms| ==> InCanonicalForm(ms[i].value)
    case _ => true
  }

  /** The canonical form of a value is the equivalent value in that form. */
  lemma CanonicalMeans(v: Value)
    requires WellFormed(v)
    ensures WellFormed(Canonical(v)) && InCanonicalForm(Canonical(v))
    ensures Equivalent(v, Canonical(v)) && Equivalent(Canonical(v), v)
    ensures InCanonicalForm(v) <==> Canonical(v) == v
  {
    CanonicalWellFormed(v);
    CanonicalIdempotent(v);
    CanonicalDecides(v, Canonical(v));
    CanonicalDecides(Canonical(v), v);
    FormIsFixed(v);
    FormIsFixed(Canonical(v));
  }

  lemma {:induction false} FormIsFixed(v: Value)
    requires WellFormed(v)
    ensures InCanonicalForm(v) <==> Canonical(v) == v
  {
    match v {
      case Arr(items) =>
        forall i | 0 <= i < |items| ensures InCanonicalForm(items[i]) <==> Canonical(items[i]) == items[i] {
          FormIsFixed(items[i]);
        }
        var cs := CanonicalItems(items);
        assert cs == items <==> forall i :: 0 <= i < |items| ==> cs[i] == items[i];
      case Obj(ms) =>
        forall i | 0 <= i < |ms| ensures InCanonicalForm(ms[i].value) <==> Canonical(ms[i].value) == ms[i].value {
          FormIsFixed(ms[i].value);
        }
        MembersInForm(ms);
      case _ =>
    }
  }

  lemma MembersInForm(ms: seq<Member>)
    requires DistinctKeys(ms)
    ensures SortMembers(CanonicalMembers(ms)) == ms
       <==> SortedMembers(ms) && forall i :: 0 <= i < |ms| ==> Canonical(ms[i].value) == ms[i].value
  {
    hide Canonical, SortMembers, SortedMembers;
    var cs := CanonicalMembers(ms);
    var r := SortMembers(cs);
    SortMembersSorted(cs);
    if SortedMembers(ms) && forall i :: 0 <= i < |ms| ==> Canonical(ms[i].value) == ms[i].value {
      assert cs == ms;
      SortedMembersUnique(r, ms);
    }
    if r == ms {
      forall i | 0 <= i < |ms| ensures Canonical(ms[i].value) == ms[i].value {
        assert cs[i] in r;
        var j :| 0 <= j < |ms| && ms[j] == cs[i];
        assert ms[j].key == ms[i].key;
      }
    }
  }
}
