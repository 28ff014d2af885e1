/**
 The life of an attempt. Its status is never overwritten: transitions are added as objects,
 and the effective status is read off the latest of them. Replicas work apart and exchange
 objects in any order.
 */
module Attempts {
  import opened Text
  import opened Numbers
  import opened Json
  import opened Identity
  import opened Printing
  import opened Reading

  datatype AttemptStatus = Planned | Running | Submitted | Abandoned | Integrated {
    predicate Open() { Running? || Planned? }

    function Name(): string {
      match this
      case Planned => "planned"
      case Running => "running"
      case Submitted => "submitted"
      case Abandoned => "abandoned"
      case Integrated => "integrated"
    }
  }

  type Millis = x: nat | x < TWO_64 witness 0

  datatype Attempt = Attempt(objectId: string, attemptId: string, status: AttemptStatus)

  datatype Transition = Transition(
    attemptId: string,
    status: AttemptStatus,
    reason: Option<string>,
    createdBy: Option<string>,
    createdAtMs: Millis)

  /** What one clone holds, in the order it arrived; `patched` lists attempts with a prepared patch. */
  datatype Replica = Replica(attempts: seq<Attempt>, transitions: seq<Transition>, patched: seq<string>)

  /* ----- names ----- */

  function OptionalStr(s: Option<string>): Value {
    if s.Some? then Str(s.value) else Null
  }

  function TransitionMembers(t: Transition): seq<Member> {
    [Member("attempt_id", Str(t.attemptId)),
     Member("status", Str(t.status.Name())),
     Member("reason", OptionalStr(t.reason)),
     Member("created_by", OptionalStr(t.createdBy)),
     Member("created_at_ms", Num(PosInt(t.createdAtMs)))]
  }

  /** The object id of a transition. */
  function TransitionId(t: Transition, p: Primitives): string {
    ObjectId("agent.attempt_status", "rickydata.git.v1", Obj(TransitionMembers(t)), p)
  }

  lemma TransitionKeys(t: Transition)
    ensures DistinctKeys(TransitionMembers(t))
  {
    hide AttemptStatus.Name;
  }

  lemma TransitionMembersDecide(t: Transition, u: Transition)
    ensures Equivalent(Obj(TransitionMembers(t)), Obj(TransitionMembers(u))) <==> t == u
  {
    hide AttemptStatus.Name, DistinctKeys;
    var ms, ns := TransitionMembers(t), TransitionMembers(u);
    TransitionKeys(t);
    ParallelMembers(ms, ns);
    NamesDiffer(t.status, u.status);
    if Equivalent(Obj(ms), Obj(ns)) {
      assert Equivalent(ms[0].value, ns[0].value);
      assert Equivalent(ms[1].value, ns[1].value);
      assert Equivalent(ms[2].value, ns[2].value);
      assert Equivalent(ms[3].value, ns[3].value);
      assert Equivalent(ms[4].value, ns[4].value);
    }
  }

  lemma TransitionBodyWellFormed(t: Transition)
    ensures WellFormed(Obj(TransitionMembers(t)))
  {
    hide AttemptStatus.Name;
  }

  lemma TransitionIdInjective(t: Transition, u: Transition, p: Primitives)
    requires p.Sound()
    ensures TransitionId(t, p) == TransitionId(u, p) <==> t == u
  {
    hide ObjectId, TransitionMembers, WellFormed, Equivalent;
    TransitionBodyWellFormed(t);
    TransitionBodyWellFormed(u);
    TransitionMembersDecide(t, u);
    ObjectIdDecides("agent.attempt_status", "rickydata.git.v1", Obj(TransitionMembers(t)),
                    "agent.attempt_status", "rickydata.git.v1", Obj(TransitionMembers(u)), p);
  }

  lemma NamesDiffer(a: AttemptStatus, b: AttemptStatus)
    ensures a.Name() == b.Name() <==> a == b
  {
    assert a.Name()[0] == b.Name()[0] ==> a == b by {
      assert Planned.Name()[0] == 'p' && Running.Name()[0] == 'r' && Submitted.Name()[0] == 's';
      assert Abandoned.Name()[0] == 'a' && Integrated.Name()[0] == 'i';
    }
  }

  /** The fields of a transition, the status under its text. */
  function TransitionFields(t: Transition): map<string, Value> {
    map["attempt_id" := Str(t.attemptId),
        "status" := Str(match t.status
                        case Planned => "planned"
                        case Running => "running"
                        case Submitted => "submitted"
                        case Abandoned => "abandoned"
                        case Integrated => "integrated"),
        "reason" := (match t.reason case Some(reason) => Str(reason) case None => Null),
        "created_by" := (match t.createdBy case Some(who) => Str(who) case None => Null),
        "created_at_ms" := Num(PosInt(t.createdAtMs))]
  }

  lemma TransitionFieldsOf(t: Transition)
    ensures FieldsOf(TransitionFields(t), TransitionMembers(t))
  {
    hide Canonical;
    forall s, n ensures Canonical(Str(s)) == Str(s) && Canonical(Num(PosInt(n))) == Num(PosInt(n)) { ScalarsCanonical(s, n); }
    assert Canonical(Null) == Null by { NullCanonical(); }
    var ms := TransitionMembers(t);
    assert ms[0].key == "attempt_id" && ms[1].key == "status" && ms[2].key == "reason";
    assert ms[3].key == "created_by" && ms[4].key == "created_at_ms";
  }

  lemma NullCanonical()
    ensures Canonical(Null) == Null
  {}

  /** A transition's id is the hash of its kind, the schema version and a body that says each field under its name. */
  lemma TransitionIdSays(t: Transition, p: Primitives, float: FloatReader)
    requires SoundSpelling(p.spell) && Undoes(float, p.spell)
    ensures var body := Canonical(Obj(TransitionMembers(t)));
            && HoldsFields(body, TransitionFields(t))
            && HashOf(TransitionId(t, p), map["kind" := Str("agent.attempt_status"), "schema_version" := Str("rickydata.git.v1"), "body" := body], p, float)
  {
    hide Canonical, TransitionMembers, TransitionFields, FieldsOf, HoldsFields, HashOf, DistinctKeys, WellFormed;
    TransitionKeys(t);
    TransitionBodyWellFormed(t);
    TransitionFieldsOf(t);
    CanonicalHoldsFields(TransitionMembers(t), TransitionFields(t));
    SigningMessageSays("agent.attempt_status", "rickydata.git.v1", Obj(TransitionMembers(t)), p, float);
  }

  function AttemptMembers(intentId: string, agentId: string, baseCommit: string, key: Option<string>): seq<Member> {
    [Member("intent_id", Str(intentId)),
     Member("agent_id", Str(agentId)),
     Member("base_commit", Str(baseCommit)),
     Member("idempotency_key", Str(if key.Some? then key.value else "default"))]
  }

  /** `compute_attempt_id` */
  function AttemptId(intentId: string, agentId: string, baseCommit: string, key: Option<string>, p: Primitives): string {
    StableHash(Obj(AttemptMembers(intentId, agentId, baseCommit, key)), p)
  }

  /** An attempt id is the hash of the intent, the agent, the base commit and the key, each under its name. */
  lemma AttemptIdSays(intentId: string, agentId: string, baseCommit: string, key: Option<string>, p: Primitives, float: FloatReader)
    requires SoundSpelling(p.spell) && Undoes(float, p.spell)
    ensures HashOf(AttemptId(intentId, agentId, baseCommit, key, p),
                   map["intent_id" := Str(intentId), "agent_id" := Str(agentId), "base_commit" := Str(baseCommit),
                       "idempotency_key" := Str(match key case Some(k) => k case None => "default")], p, float)
  {
    hide Canonical, HashOf, StableHash, WellFormed;
    forall s ensures Canonical(Str(s)) == Str(s) { ScalarsCanonical(s, 0); }
    AttemptBodyWellFormed(intentId, agentId, baseCommit, key);
    var ms := AttemptMembers(intentId, agentId, baseCommit, key);
    assert ms[0].key == "intent_id" && ms[1].key == "agent_id" && ms[2].key == "base_commit" && ms[3].key == "idempotency_key";
    FieldsRead(ms, map["intent_id" := Str(intentId), "agent_id" := Str(agentId), "base_commit" := Str(baseCommit),
                       "idempotency_key" := Str(match key case Some(k) => k case None => "default")], p, float);
  }

  predicate SameAttempt(i1: string, a1: string, b1: string, k1: Option<string>,
                        i2: string, a2: string, b2: string, k2: Option<string>) {
    i1 == i2 && a1 == a2 && b1 == b2
    && (k1 == k2 || (k1 in {None, Some("default")} && k2 in {None, Some("default")}))
  }

  lemma AttemptBodyWellFormed(i: string, a: string, b: string, k: Option<string>)
    ensures WellFormed(Obj(AttemptMembers(i, a, b, k))) && DistinctKeys(AttemptMembers(i, a, b, k))
  {}

  lemma AttemptMembersDecide(i1: string, a1: string, b1: string, k1: Option<string>,
                             i2: string, a2: string, b2: string, k2: Option<string>)
    ensures Equivalent(Obj(AttemptMembers(i1, a1, b1, k1)), Obj(AttemptMembers(i2, a2, b2, k2)))
       <==> SameAttempt(i1, a1, b1, k1, i2, a2, b2, k2)
  {
    hide DistinctKeys;
    var ms, ns := AttemptMembers(i1, a1, b1, k1), AttemptMembers(i2, a2, b2, k2);
    AttemptBodyWellFormed(i1, a1, b1, k1);
    ParallelMembers(ms, ns);
    assert Equivalent(ms[0].value, ns[0].value) <==> i1 == i2;
    assert Equivalent(ms[1].value, ns[1].value) <==> a1 == a2;
    assert Equivalent(ms[2].value, ns[2].value) <==> b1 == b2;
    assert Equivalent(ms[3].value, ns[3].value) <==> ms[3].value == ns[3].value;
  }

  /** Starting again with the same inputs names the same attempt; leaving the key out is the key "default". */
  lemma AttemptIdDecides(i1: string, a1: string, b1: string, k1: Option<string>,
                         i2: string, a2: string, b2: string, k2: Option<string>, p: Primitives)
    requires p.Sound()
    ensures AttemptId(i1, a1, b1, k1, p) == AttemptId(i2, a2, b2, k2, p)
       <==> SameAttempt(i1, a1, b1, k1, i2, a2, b2, k2)
  {
    hide StableHash, WellFormed, Equivalent, AttemptMembers;
    AttemptMembersDecide(i1, a1, b1, k1, i2, a2, b2, k2);
    AttemptBodyWellFormed(i1, a1, b1, k1);
    AttemptBodyWellFormed(i2, a2, b2, k2);
    StableHashDecides(Obj(AttemptMembers(i1, a1, b1, k1)), Obj(AttemptMembers(i2, a2, b2, k2)), p);
  }

  /* ----- effective status ----- */

  /** `find_attempt`: of the objects with this attempt id, the one listed first, by object id. */
  function FindAttempt(attempts: seq<Attempt>, id: string): Option<Attempt> {
    if attempts == [] then None
    else
      var best, a := FindAttempt(attempts[..|attempts| - 1], id), attempts[|attempts| - 1];
      if a.attemptId == id && (best.None? || Before(a.objectId, best.value.objectId)) then Some(a) else best
  }

  function Collected(ts: seq<Transition>, id: string): seq<Transition> {
    if ts == [] then []
    else Collected(ts[..|ts| - 1], id) + (if ts[|ts| - 1].attemptId == id then [ts[|ts| - 1]] else [])
  }

  /** The sort order: by time, then by object id. */
  predicate NoLater(t: Transition, u: Transition, p: Primitives) {
    t.createdAtMs < u.createdAtMs
    || (t.createdAtMs == u.createdAtMs && AtMost(TransitionId(t, p), TransitionId(u, p)))
  }

  function InsertByTime(t: Transition, ts: seq<Transition>, p: Primitives): seq<Transition> {
    if ts == [] then [t]
    else if NoLater(t, ts[|ts| - 1], p) then InsertByTime(t, ts[..|ts| - 1], p) + [ts[|ts| - 1]]
    else ts + [t]
  }

  function SortByTime(ts: seq<Transition>, p: Primitives): seq<Transition> {
    if ts == [] then [] else InsertByTime(ts[|ts| - 1], SortByTime(ts[..|ts| - 1], p), p)
  }

  type Status = (AttemptStatus, Option<string>)

  /** `effective_attempt_status`; None when the attempt is unknown. */
  function Effective(r: Replica, id: string, p: Primitives): Option<Status> {
    match FindAttempt(r.attempts, id)
    case None => None
    case Some(a) =>
      var ts := SortByTime(Collected(r.transitions, id), p);
      if ts == [] then Some((a.status, None))
      else Some((ts[|ts| - 1].status, Some(TransitionId(ts[|ts| - 1], p))))
  }

  lemma {:induction false} FindAttemptFinds(attempts: seq<Attempt>, id: string)
    ensures FindAttempt(attempts, id).Some? <==> exists i :: 0 <= i < |attempts| && attempts[i].attemptId == id
    ensures FindAttempt(attempts, id).Some? ==>
              var a := FindAttempt(attempts, id).value;
              a in attempts && a.attemptId == id && forall b :: b in attempts && b.attemptId == id ==> AtMost(a.objectId, b.objectId)
  {
    if attempts != [] {
      var front, last := attempts[..|attempts| - 1], attempts[|attempts| - 1];
      FindAttemptFinds(front, id);
      assert attempts == front + [last];
      assert last.attemptId == id ==> attempts[|attempts| - 1].attemptId == id;
      if FindAttempt(front, id).Some? {
        var i :| 0 <= i < |front| && front[i].attemptId == id;
        assert attempts[i].attemptId == id;
      }
      if FindAttempt(attempts, id).Some? {
        var a := FindAttempt(attempts, id).value;
        forall b | b in attempts && b.attemptId == id ensures AtMost(a.objectId, b.objectId) {
          AtMostTotal(a.objectId, b.objectId);
          if b in front && a == last && FindAttempt(front, id).Some? {
            AtMostTransitive(a.objectId, FindAttempt(front, id).value.objectId, b.objectId);
          }
        }
      }
    }
  }

  lemma {:induction false} CollectedMembers(ts: seq<Transition>, id: string)
    ensures forall t :: t in Collected(ts, id) <==> t in ts && t.attemptId == id
  {
    if ts != [] {
      CollectedMembers(ts[..|ts| - 1], id);
      assert ts == ts[..|ts| - 1] + [ts[|ts| - 1]];
    }
  }

  lemma NoLaterTotal(t: Transition, u: Transition, p: Primitives)
    ensures NoLater(t, u, p) || NoLater(u, t, p)
  {
    AtMostTotal(TransitionId(t, p), TransitionId(u, p));
    hide TransitionId, AtMost;
  }

  lemma NoLaterTransitive(t: Transition, u: Transition, v: Transition, p: Primitives)
    requires NoLater(t, u, p) && NoLater(u, v, p)
    ensures NoLater(t, v, p)
  {
    hide TransitionId, AtMost;
    if AtMost(TransitionId(t, p), TransitionId(u, p)) && AtMost(TransitionId(u, p), TransitionId(v, p)) {
      AtMostTransitive(TransitionId(t, p), TransitionId(u, p), TransitionId(v, p));
    }
  }

  lemma NoLaterAntisymmetric(t: Transition, u: Transition, p: Primitives)
    requires p.Sound() && NoLater(t, u, p) && NoLater(u, t, p)
    ensures t == u
  {
    hide TransitionId, AtMost;
    AtMostAntisymmetric(TransitionId(t, p), TransitionId(u, p));
    TransitionIdInjective(t, u, p);
  }

  ghost predicate LastIsLatest(s: seq<Transition>, p: Primitives) {
    s == [] || forall t :: t in s ==> NoLater(t, s[|s| - 1], p)
  }

  lemma {:induction false} InsertByTimeLast(t: Transition, ts: seq<Transition>, p: Primitives)
    requires LastIsLatest(ts, p)
    ensures LastIsLatest(InsertByTime(t, ts, p), p)
    ensures forall u :: u in InsertByTime(t, ts, p) <==> u == t || u in ts
    ensures |InsertByTime(t, ts, p)| == |ts| + 1
  {
    hide NoLater;
    InsertByTimeMembers(t, ts, p);
    NoLaterTotal(t, t, p);
    if ts != [] {
      var last := ts[|ts| - 1];
      NoLaterTotal(t, last, p);
      if !NoLater(t, last, p) {
        forall u | u in ts ensures NoLater(u, t, p) { NoLaterTransitive(u, last, t, p); }
      }
    }
  }

  lemma {:induction false} InsertByTimeMembers(t: Transition, ts: seq<Transition>, p: Primitives)
    ensures forall u :: u in InsertByTime(t, ts, p) <==> u == t || u in ts
    ensures |InsertByTime(t, ts, p)| == |ts| + 1
    ensures ts != [] && NoLater(t, ts[|ts| - 1], p) ==> InsertByTime(t, ts, p)[|ts|] == ts[|ts| - 1]
  {
    hide NoLater;
    if ts != [] {
      InsertByTimeMembers(t, ts[..|ts| - 1], p);
      assert ts == ts[..|ts| - 1] + [ts[|ts| - 1]];
    }
  }

  lemma {:induction false} SortByTimeLast(ts: seq<Transition>, p: Primitives)
    ensures LastIsLatest(SortByTime(ts, p), p)
    ensures forall t :: t in SortByTime(ts, p) <==> t in ts
    ensures |SortByTime(ts, p)| == |ts|
  {
    hide LastIsLatest;
    if ts != [] {
      var front, last := ts[..|ts| - 1], ts[|ts| - 1];
      SortByTimeLast(front, p);
      InsertByTimeLast(last, SortByTime(front, p), p);
      assert ts == front + [last];
    } else {
      NothingIsLatest(p);
    }
  }

  lemma NothingIsLatest(p: Primitives)
    ensures LastIsLatest([], p)
  {}

  /** t is the latest transition of this attempt in r. */
  ghost predicate IsLatest(r: Replica, id: string, t: Transition, p: Primitives) {
    && t in r.transitions && t.attemptId == id
    && forall u :: u in r.transitions && u.attemptId == id ==> NoLater(u, t, p)
  }

  ghost predicate HasTransition(r: Replica, id: string) {
    exists t :: t in r.transitions && t.attemptId == id
  }

  predicate HasAttempt(r: Replica, id: string) { FindAttempt(r.attempts, id).Some? }

  lemma LatestDecides(r: Replica, id: string, p: Primitives) returns (t: Transition)
    requires HasAttempt(r, id)
    ensures HasTransition(r, id) ==>
              IsLatest(r, id, t, p) && Effective(r, id, p) == Some((t.status, Some(TransitionId(t, p))))
    ensures !HasTransition(r, id) ==> Effective(r, id, p) == Some((FindAttempt(r.attempts, id).value.status, None))
  {
    hide NoLater, TransitionId, Collected, SortByTime, FindAttempt;
    var c := Collected(r.transitions, id);
    var ts := SortByTime(c, p);
    CollectedMembers(r.transitions, id);
    SortByTimeLast(c, p);
    assert ts != [] ==> ts[0] in ts;
    if HasTransition(r, id) {
      var x :| x in r.transitions && x.attemptId == id;
      assert x in c && x in ts;
      t := ts[|ts| - 1];
      assert t in ts;
    } else {
      t := Transition(id, Running, None, None, 0);
    }
  }

  /** u is older than t, or as old and its id comes no later in the order of code points. */
  ghost predicate GivesWayTo(u: Transition, t: Transition, p: Primitives) {
    || u.createdAtMs < t.createdAtMs
    || (u.createdAtMs == t.createdAtMs
        && (TransitionId(u, p) <= TransitionId(t, p) || exists i: nat :: SmallerAt(TransitionId(u, p), TransitionId(t, p), i)))
  }

  lemma NoLaterMeans(u: Transition, t: Transition, p: Primitives)
    ensures NoLater(u, t, p) <==> GivesWayTo(u, t, p)
  {
    AtMostMeans(TransitionId(u, p), TransitionId(t, p));
    hide TransitionId, AtMost, SmallerAt;
  }

  /**
   The effective status is the one set by the transition of this attempt that every other held one
   gives way to, by time and then by object id; with none held it is the attempt's own.
   */
  lemma EffectiveMeaning(r: Replica, id: string, p: Primitives) returns (t: Transition)
    requires HasAttempt(r, id)
    ensures HasTransition(r, id) ==>
              && t in r.transitions && t.attemptId == id
              && (forall u :: u in r.transitions && u.attemptId == id ==> GivesWayTo(u, t, p))
              && Effective(r, id, p) == Some((t.status, Some(TransitionId(t, p))))
    ensures !HasTransition(r, id) ==> Effective(r, id, p) == Some((FindAttempt(r.attempts, id).value.status, None))
  {
    hide NoLater, GivesWayTo, TransitionId, Effective;
    t := LatestDecides(r, id, p);
    forall u ensures NoLater(u, t, p) <==> GivesWayTo(u, t, p) { NoLaterMeans(u, t, p); }
  }

  lemma LatestIsUnique(r: Replica, id: string, t: Transition, u: Transition, p: Primitives)
    requires p.Sound() && IsLatest(r, id, t, p) && IsLatest(r, id, u, p)
    ensures t == u
  {
    NoLaterAntisymmetric(t, u, p);
  }

  ghost predicate SameElements<T(!new)>(a: seq<T>, b: seq<T>) {
    forall x :: x in a <==> x in b
  }

  /** Object ids name attempts. */
  ghost predicate AttemptsNamed(attempts: seq<Attempt>) {
    forall a, b :: a in attempts && b in attempts && a.objectId == b.objectId ==> a == b
  }

  lemma FindAttemptByContents(a: seq<Attempt>, b: seq<Attempt>, id: string)
    requires SameElements(a, b) && AttemptsNamed(a)
    ensures FindAttempt(a, id) == FindAttempt(b, id)
  {
    hide FindAttempt, AtMost;
    FindAttemptFinds(a, id);
    FindAttemptFinds(b, id);
    if FindAttempt(a, id).Some? {
      var i :| 0 <= i < |a| && a[i].attemptId == id;
      assert a[i] in b;
    }
    if FindAttempt(b, id).Some? {
      var i :| 0 <= i < |b| && b[i].attemptId == id;
      assert b[i] in a;
    }
    if FindAttempt(a, id).Some? && FindAttempt(b, id).Some? {
      AtMostAntisymmetric(FindAttempt(a, id).value.objectId, FindAttempt(b, id).value.objectId);
    }
  }

  /** The status depends on which objects a replica holds and not on when they arrived. */
  lemma ArrivalOrderIsIrrelevant(r: Replica, q: Replica, id: string, p: Primitives)
    requires p.Sound() && AttemptsNamed(r.attempts)
    requires SameElements(r.attempts, q.attempts) && SameElements(r.transitions, q.transitions)
    ensures Effective(r, id, p) == Effective(q, id, p)
  {
    hide NoLater, TransitionId, FindAttempt, Collected, SortByTime;
    FindAttemptByContents(r.attempts, q.attempts, id);
    if HasAttempt(r, id) {
      var t := LatestDecides(r, id, p);
      var u := LatestDecides(q, id, p);
      if HasTransition(r, id) {
        assert HasTransition(q, id);
        assert IsLatest(q, id, t, p);
        LatestIsUnique(q, id, t, u, p);
      }
    }
  }

  /* ----- a replica's commands ----- */

  function WriteTransition(r: Replica, t: Transition, p: Primitives): Replica {
    var now := Effective(r, t.attemptId, p);
    if now.Some? && now.value.0.Open() then Added(r, t) else r
  }

  /** Content addressing: an object already held is not added again. */
  function Added(r: Replica, t: Transition): Replica {
    if t in r.transitions then r else r.(transitions := r.transitions + [t])
  }

  function Submit(r: Replica, t: Transition, p: Primitives): Replica {
    if t.attemptId in r.patched then WriteTransition(r, t, p) else r
  }

  predicate MayExec(r: Replica, id: string, p: Primitives) {
    Effective(r, id, p).Some? && Effective(r, id, p).value.0 == Running
  }

  class Clone {
    var attempts: seq<Attempt>
    var transitions: seq<Transition>
    var patched: seq<string>

    constructor ()
      ensures Contents() == Replica([], [], [])
    {
      attempts, transitions, patched := [], [], [];
    }

    function Contents(): Replica
      reads this
    {
      Replica(attempts, transitions, patched)
    }

    method EffectiveStatus(id: string, p: Primitives) returns (r: Option<Status>)
      ensures r == Effective(Contents(), id, p)
    {
      hide FindAttempt, SortByTime, TransitionId;
      var attempt := FindAttempt(attempts, id);
      if attempt.None? {
        return None;
      }
      var found := [];
      for i := 0 to |transitions|
        invariant found == Collected(transitions[..i], id)
      {
        assert transitions[..i + 1][..i] == transitions[..i];
        if transitions[i].attemptId == id {
          found := found + [transitions[i]];
        }
      }
      assert transitions[..|transitions|] == transitions;
      found := SortByTime(found, p);
      if found == [] {
        return Some((attempt.value.status, None));
      }
      var last := found[|found| - 1];
      r := Some((last.status, Some(TransitionId(last, p))));
    }

    method WriteAttemptTransition(t: Transition, p: Primitives) returns (ok: bool)
      modifies `transitions
      ensures Contents() == WriteTransition(old(Contents()), t, p)
      ensures ok ==> t in transitions
      ensures ok <==> old(Effective(Contents(), t.attemptId, p)).Some? && old(Effective(Contents(), t.attemptId, p)).value.0.Open()
    {
      hide Effective;
      var status := EffectiveStatus(t.attemptId, p);
      if status.None? || !status.value.0.Open() {
        return false;
      }
      if t !in transitions {
        transitions := transitions + [t];
      }
      ok := true;
    }

    method SubmitAttempt(t: Transition, p: Primitives) returns (ok: bool)
      modifies `transitions
      ensures Contents() == Submit(old(Contents()), t, p)
      ensures ok ==> t in transitions && t.attemptId in patched
    {
      hide Effective, WriteTransition;
      if t.attemptId !in patched {
        return false;
      }
      ok := WriteAttemptTransition(t, p);
    }
  }

  /* ----- any number of replicas ----- */

  datatype Action =
    | Start(at: nat, attempt: Attempt)
    | Prepare(at: nat, id: string)
    | SubmitIt(at: nat, id: string, reason: Option<string>, who: Option<string>, ms: Millis)
    | AbandonIt(at: nat, id: string, reason: Option<string>, who: Option<string>, ms: Millis)
    | PullAttempt(at: nat, from: nat, k: nat)
    | PullTransition(at: nat, from: nat, k: nat)
    | PullPatch(at: nat, from: nat, k: nat)

  function Act(r: Replica, s: seq<Replica>, a: Action, p: Primitives): Replica {
    match a
    case Start(_, attempt) =>
      if attempt.status == Running then r.(attempts := r.attempts + [attempt]) else r
    case Prepare(_, id) => r.(patched := r.patched + [id])
    case SubmitIt(_, id, reason, who, ms) => Submit(r, Transition(id, Submitted, reason, who, ms), p)
    case AbandonIt(_, id, reason, who, ms) => WriteTransition(r, Transition(id, Abandoned, reason, who, ms), p)
    case PullAttempt(_, from, k) =>
      if from < |s| && k < |s[from].attempts| then r.(attempts := r.attempts + [s[from].attempts[k]]) else r
    case PullTransition(_, from, k) =>
      if from < |s| && k < |s[from].transitions| then Added(r, s[from].transitions[k]) else r
    case PullPatch(_, from, k) =>
      if from < |s| && k < |s[from].patched| then r.(patched := r.patched + [s[from].patched[k]]) else r
  }

  function Step(s: seq<Replica>, a: Action, p: Primitives): (t: seq<Replica>)
    ensures |t| == |s|
  {
    if a.at < |s| then s[a.at := Act(s[a.at], s, a, p)] else s
  }

  function Run(n: nat, actions: seq<Action>, p: Primitives): (s: seq<Replica>)
    ensures |s| == n
  {
    if actions == [] then seq(n, i => Replica([], [], []))
    else Step(Run(n, actions[..|actions| - 1], p), actions[|actions| - 1], p)
  }

  /** Attempts are written running, and transitions only ever close them. */
  ghost predicate OnlyCloses(r: Replica) {
    && (forall a :: a in r.attempts ==> a.status == Running)
    && (forall t :: t in r.transitions ==> t.status == Submitted || t.status == Abandoned)
  }

  lemma ActKeepsCloses(s: seq<Replica>, a: Action, p: Primitives)
    requires a.at < |s| && forall i :: 0 <= i < |s| ==> OnlyCloses(s[i])
    ensures OnlyCloses(Act(s[a.at], s, a, p))
  {
    hide Effective;
    assert OnlyCloses(s[a.at]);
    if (a.PullAttempt? || a.PullTransition? || a.PullPatch?) && a.from < |s| {
      assert OnlyCloses(s[a.from]);
    }
  }

  lemma {:induction false} RunOnlyCloses(n: nat, actions: seq<Action>, p: Primitives)
    ensures forall i :: 0 <= i < n ==> OnlyCloses(Run(n, actions, p)[i])
  {
    hide Act, OnlyCloses;
    if actions == [] {
      NothingCloses();
    } else {
      var s, a := Run(n, actions[..|actions| - 1], p), actions[|actions| - 1];
      RunOnlyCloses(n, actions[..|actions| - 1], p);
      if a.at < |s| { ActKeepsCloses(s, a, p); }
    }
  }

  lemma NothingCloses()
    ensures OnlyCloses(Replica([], [], []))
  {}

  /** With a transition at hand an attempt is submitted or abandoned, never running or planned. */
  lemma ClosedOnceHeld(r: Replica, id: string, p: Primitives)
    requires OnlyCloses(r) && HasTransition(r, id)
    ensures Effective(r, id, p).Some? ==> Effective(r, id, p).value.0 == Submitted || Effective(r, id, p).value.0 == Abandoned
    ensures !MayExec(r, id, p)
  {
    hide NoLater, TransitionId, SortByTime, Collected, FindAttempt;
    if HasAttempt(r, id) {
      var t := LatestDecides(r, id, p);
    }
  }

  lemma RunOpenIffNone(r: Replica, id: string, p: Primitives)
    requires OnlyCloses(r)
    ensures MayExec(r, id, p) <==> HasAttempt(r, id) && !HasTransition(r, id)
    ensures Effective(r, id, p).Some? && Effective(r, id, p).value.0.Open() ==> !HasTransition(r, id)
  {
    if HasTransition(r, id) {
      ClosedOnceHeld(r, id, p);
    } else if HasAttempt(r, id) {
      FindAttemptFinds(r.attempts, id);
      var _ := LatestDecides(r, id, p);
    }
    hide TransitionId, SortByTime, Collected;
  }

  lemma {:induction false} HeldStaysHeld(n: nat, actions: seq<Action>, m: nat, i: nat, id: string, p: Primitives)
    requires i < n && m <= |actions| && HasTransition(Run(n, actions[..m], p)[i], id)
    ensures HasTransition(Run(n, actions, p)[i], id)
    decreases |actions|
  {
    hide Effective;
    if m == |actions| {
      assert actions[..m] == actions;
    } else {
      var front := actions[..|actions| - 1];
      assert front[..m] == actions[..m];
      HeldStaysHeld(n, front, m, i, id, p);
      var t :| t in Run(n, front, p)[i].transitions && t.attemptId == id;
      StepKeepsTransitions(Run(n, front, p), actions[|actions| - 1], i, t, p);
    }
  }

  lemma StepKeepsTransitions(s: seq<Replica>, a: Action, i: nat, t: Transition, p: Primitives)
    requires i < |s| && t in s[i].transitions
    ensures t in Step(s, a, p)[i].transitions
  {
    hide Effective;
  }

  /**
   Across any number of replicas, exchanging objects in any order and with any clocks: once a
   replica holds a transition of an attempt it never again reports the attempt running or
   planned, so `run exec` never starts there again.
   */
  lemma NeverReopened(n: nat, actions: seq<Action>, m: nat, i: nat, id: string, p: Primitives)
    requires i < n && m <= |actions| && HasTransition(Run(n, actions[..m], p)[i], id)
    ensures var r := Run(n, actions, p)[i];
            && !MayExec(r, id, p)
            && (Effective(r, id, p).Some? ==> !Effective(r, id, p).value.0.Open())
  {
    hide Effective, Run;
    HeldStaysHeld(n, actions, m, i, id, p);
    RunOnlyCloses(n, actions, p);
    ClosedOnceHeld(Run(n, actions, p)[i], id, p);
  }

  /** `run exec` starts exactly where the attempt is known and no transition of it is. */
  lemma ExecExactlyWhenOpen(n: nat, actions: seq<Action>, i: nat, id: string, p: Primitives)
    requires i < n
    ensures var r := Run(n, actions, p)[i]; MayExec(r, id, p) <==> HasAttempt(r, id) && !HasTransition(r, id)
  {
    hide Effective, Run, HasAttempt;
    RunOnlyCloses(n, actions, p);
    RunOpenIffNone(Run(n, actions, p)[i], id, p);
  }

  ghost predicate NeverPulls(actions: seq<Action>, i: nat) {
    forall k :: 0 <= k < |actions| && actions[k].PullTransition? ==> actions[k].at != i
  }

  ghost predicate OneEach(r: Replica) {
    forall j, k :: 0 <= j < k < |r.transitions| ==> r.transitions[j].attemptId != r.transitions[k].attemptId
  }

  lemma WriteKeepsOneEach(r: Replica, t: Transition, p: Primitives)
    requires OnlyCloses(r) && OneEach(r)
    ensures OneEach(WriteTransition(r, t, p))
  {
    RunOpenIffNone(r, t.attemptId, p);
    hide Effective;
    if WriteTransition(r, t, p) != r {
      forall j | 0 <= j < |r.transitions| ensures r.transitions[j].attemptId != t.attemptId {
        assert r.transitions[j] in r.transitions;
      }
    }
  }

  /** A replica that never pulls transitions holds at most one per attempt. */
  lemma {:induction false} AloneOneEach(n: nat, actions: seq<Action>, i: nat, p: Primitives)
    requires i < n && NeverPulls(actions, i)
    ensures OneEach(Run(n, actions, p)[i])
  {
    hide Effective, WriteTransition, OneEach;
    if actions == [] {
      NothingOneEach();
    } else {
      var front, a := actions[..|actions| - 1], actions[|actions| - 1];
      assert forall k :: 0 <= k < |front| ==> front[k] == actions[k];
      AloneOneEach(n, front, i, p);
      RunOnlyCloses(n, front, p);
      var r := Run(n, front, p)[i];
      if a.at == i && a.SubmitIt? { WriteKeepsOneEach(r, Transition(a.id, Submitted, a.reason, a.who, a.ms), p); }
      if a.at == i && a.AbandonIt? { WriteKeepsOneEach(r, Transition(a.id, Abandoned, a.reason, a.who, a.ms), p); }
      assert a == actions[|actions| - 1];
      SameTransitionsOneEach(r, Run(n, actions, p)[i]);
    }
  }

  lemma NothingOneEach()
    ensures OneEach(Replica([], [], []))
  {}

  lemma SameTransitionsOneEach(r: Replica, q: Replica)
    ensures r.transitions == q.transitions ==> (OneEach(r) <==> OneEach(q))
  {}

  /** Two clones can each close an attempt their own way; whoever then holds both sees the later close, by time and then by object id. */
  lemma ConcurrentClosesConverge(r: Replica, t: Transition, q: Replica, u: Transition, p: Primitives)
    requires p.Sound() && AttemptsNamed(r.attempts)
    requires r.transitions == [t] && q.transitions == [u] && t.attemptId == u.attemptId && t != u
    requires SameElements(r.attempts, q.attempts) && HasAttempt(r, t.attemptId)
    ensures Effective(Added(r, u), t.attemptId, p) == Effective(Added(q, t), t.attemptId, p)
    ensures var winner := if GivesWayTo(t, u, p) then u else t;
            Effective(Added(r, u), t.attemptId, p) == Some((winner.status, Some(TransitionId(winner, p))))
    ensures t.createdAtMs < u.createdAtMs ==> GivesWayTo(t, u, p)
    ensures u.createdAtMs < t.createdAtMs ==> !GivesWayTo(t, u, p)
  {
    TimeDecides(t, u, p);
    hide NoLater, GivesWayTo, TransitionId, FindAttempt, SortByTime, Collected;
    ArrivalOrderIsIrrelevant(Added(r, u), Added(q, t), t.attemptId, p);
    var both := Added(r, u);
    assert t in both.transitions;
    assert HasTransition(both, t.attemptId);
    var x := LatestDecides(both, t.attemptId, p);
    NoLaterTotal(t, u, p);
    NoLaterMeans(t, u, p);
    if NoLater(t, u, p) && NoLater(u, t, p) { NoLaterAntisymmetric(t, u, p); }
  }

  lemma TimeDecides(t: Transition, u: Transition, p: Primitives)
    ensures t.createdAtMs < u.createdAtMs ==> GivesWayTo(t, u, p)
    ensures u.createdAtMs < t.createdAtMs ==> !GivesWayTo(t, u, p)
  {
    hide TransitionId, SmallerAt;
  }

  /**
   In every reachable state `attempt submit` and `attempt abandon` close an attempt, each with its
   own status, exactly where it is known and nothing has closed it; submitting needs a prepared
   patch as well. Otherwise they change nothing.
   */
  lemma CloseOutcome(n: nat, actions: seq<Action>, a: Action, p: Primitives)
    requires (a.SubmitIt? || a.AbandonIt?) && a.at < n
    ensures var r, id := Run(n, actions, p)[a.at], a.id;
            var status := if a.SubmitIt? then Submitted else Abandoned;
            Run(n, actions + [a], p)[a.at] ==
              if HasAttempt(r, id) && !HasTransition(r, id) && (a.SubmitIt? ==> id in r.patched)
              then r.(transitions := r.transitions + [Transition(id, status, a.reason, a.who, a.ms)]) else r
  {
    hide Effective, HasAttempt, OnlyCloses;
    assert (actions + [a])[..|actions|] == actions;
    RunOnlyCloses(n, actions, p);
    var r := Run(n, actions, p)[a.at];
    OpenMeans(r, a.id, p);
  }

  lemma OpenMeans(r: Replica, id: string, p: Primitives)
    requires OnlyCloses(r)
    ensures Effective(r, id, p).Some? && Effective(r, id, p).value.0.Open() <==> HasAttempt(r, id) && !HasTransition(r, id)
  {
    hide NoLater, TransitionId, SortByTime, Collected, FindAttempt;
    RunOpenIffNone(r, id, p);
  }
}
