/**
 Concurrent pushes to the bucket-backed relay, as a state machine.

 Every request to the bucket is one step, and any number of pushers interleave. A write may
 be applied without its caller hearing of it (a lost response, a retry, a timeout): that is
 the silent step, allowed at any moment and even after the pusher has given up. Reading the
 idempotency record may fail for any reason and is then taken for absence, and the listing
 may miss objects, since it comes in pages.
 */
module GcsRelay {
  import opened Text
  import opened Identity
  import opened Relay

  datatype ObjectName = ObjectName(repo: string, id: string)
  datatype RecordName = RecordName(repo: string, key: string)

  datatype Stage = Reading | Listing | Putting | Recording | Rereading | Done(report: PushReport)

  datatype Pusher = Pusher(
    request: PushRequest,
    stage: Stage,
    failed: bool,
    existing: set<ObjectName>,
    next: nat,
    accepted: nat,
    duplicate: nat)
  {
    function Record(): RecordName { RecordName(request.repo, request.key) }

    function Name(i: nat): ObjectName
      requires i < |request.objects|
    {
      ObjectName(request.repo, request.objects[i].objectId)
    }

    /** The report this pusher would store; its ids are not deduplicated. */
    function Report(p: Primitives): PushReport {
      var ids := Ids(request.objects);
      PushReport(request.repo, request.key, accepted, duplicate, ids, BundleHash(ids, p))
    }

    /** The call was answered by the record alone: it never got through its objects. */
    predicate Replayed() { stage.Done? && next < |request.objects| }

    predicate Running() { !failed && !stage.Done? }

    predicate PuttingOne() { stage.Putting? && next < |request.objects| && Name(next) !in existing }
  }

  /** `unreported` counts objects created by writes whose success no pusher was told of. */
  datatype State = State(
    objects: map<ObjectName, CanonicalObject>,
    records: map<RecordName, PushReport>,
    pushers: seq<Pusher>,
    unreported: nat)

  datatype Action = Begin(request: PushRequest) | Act(i: nat, step: Step)

  datatype Step =
    | ReadFound
    | ReadNothing
    | List(seen: set<ObjectName>)
    | SkipListed
    | PutWritten
    | PutExists
    | FinishPuts
    | RecordWritten
    | RecordExists
    | Reread
    | Fail
    | SilentPut
    | SilentRecord

  predicate Enabled(s: State, a: Action, rules: Rules) {
    match a
    case Begin(request) => ValidBundle(request, rules)
    case Act(i, step) => i < |s.pushers| && CanTake(s.pushers[i], step, s)
  }

  predicate CanTake(u: Pusher, step: Step, s: State) {
    match step
    case ReadFound => u.Running() && u.stage.Reading? && u.Record() in s.records
    case ReadNothing => u.Running() && u.stage.Reading?
    case List(seen) => u.Running() && u.stage.Listing? && seen <= s.objects.Keys
    case SkipListed => u.Running() && u.stage.Putting? && u.next < |u.request.objects| && u.Name(u.next) in u.existing
    case PutWritten => u.Running() && u.PuttingOne() && u.Name(u.next) !in s.objects
    case PutExists => u.Running() && u.PuttingOne() && u.Name(u.next) in s.objects
    case FinishPuts => u.Running() && u.stage.Putting? && u.next == |u.request.objects|
    case RecordWritten => u.Running() && u.stage.Recording? && u.Record() !in s.records
    case RecordExists => u.Running() && u.stage.Recording? && u.Record() in s.records
    case Reread => u.Running() && u.stage.Rereading? && u.Record() in s.records
    case Fail => u.Running()
    case SilentPut => u.PuttingOne() && u.Name(u.next) !in s.objects
    case SilentRecord => u.stage.Recording? && u.Record() !in s.records
  }

  /** The pusher that acts, after the step. */
  function Advance(u: Pusher, step: Step, s: State, p: Primitives): Pusher
    requires CanTake(u, step, s)
  {
    match step
    case ReadFound => u.(stage := Done(s.records[u.Record()]))
    case ReadNothing => u.(stage := Listing)
    case List(seen) => u.(stage := Putting, existing := seen)
    case SkipListed => u.(next := u.next + 1, duplicate := u.duplicate + 1)
    case PutWritten => u.(next := u.next + 1, accepted := u.accepted + 1)
    case PutExists => u.(next := u.next + 1, duplicate := u.duplicate + 1)
    case FinishPuts => u.(stage := Recording)
    case RecordWritten => u.(stage := Done(u.Report(p)))
    case RecordExists => u.(stage := Rereading)
    case Reread => u.(stage := Done(s.records[u.Record()]))
    case Fail => u.(failed := true)
    case SilentPut => u
    case SilentRecord => u
  }

  function ObjectsAfter(u: Pusher, step: Step, s: State): map<ObjectName, CanonicalObject>
    requires CanTake(u, step, s)
  {
    if step.PutWritten? || step.SilentPut? then s.objects[u.Name(u.next) := u.request.objects[u.next]]
    else s.objects
  }

  function RecordsAfter(u: Pusher, step: Step, s: State, p: Primitives): map<RecordName, PushReport> {
    if step.RecordWritten? || step.SilentRecord? then s.records[u.Record() := u.Report(p)] else s.records
  }

  function Next(s: State, a: Action, rules: Rules): State
    requires Enabled(s, a, rules)
  {
    match a
    case Begin(request) => s.(pushers := s.pushers + [Pusher(request, Reading, false, {}, 0, 0, 0)])
    case Act(i, step) =>
      var u := s.pushers[i];
      State(ObjectsAfter(u, step, s), RecordsAfter(u, step, s, rules.p),
            s.pushers[i := Advance(u, step, s, rules.p)],
            if step.SilentPut? then s.unreported + 1 else s.unreported)
  }

  /** t is reached from s by the steps of run. */
  predicate Reaches(s: State, run: seq<Action>, t: State, rules: Rules)
    decreases |run|
  {
    if run == [] then s == t
    else Enabled(s, run[0], rules) && Reaches(Next(s, run[0], rules), run[1..], t, rules)
  }

  /* ----- the invariant ----- */

  /** A record is true of its key and names only objects in the bucket. */
  ghost predicate RecordOk(n: RecordName, r: PushReport, objects: map<ObjectName, CanonicalObject>, p: Primitives) {
    && r.repo == n.repo && r.key == n.key
    && r.accepted + r.duplicate == |r.objectIds|
    && r.bundleHash == BundleHash(r.objectIds, p)
    && forall i :: 0 <= i < |r.objectIds| ==> ObjectName(n.repo, r.objectIds[i]) in objects
  }

  ghost predicate PusherOk(u: Pusher, objects: map<ObjectName, CanonicalObject>, records: map<RecordName, PushReport>) {
    && u.next <= |u.request.objects|
    && u.accepted + u.duplicate == u.next
    && u.existing <= objects.Keys
    && (forall i :: 0 <= i < u.next ==> u.Name(i) in objects)
    && (u.stage.Reading? || u.stage.Listing? ==> u.next == 0)
    && (u.stage.Recording? || u.stage.Rereading? ==> u.next == |u.request.objects|)
    && (u.stage.Done? ==> u.next == 0 || u.next == |u.request.objects|)
    && (u.stage.Rereading? ==> u.Record() in records)
    && (u.stage.Done? ==> u.Record() in records && records[u.Record()] == u.stage.report)
  }

  function TotalAccepted(us: seq<Pusher>): nat {
    if us == [] then 0 else TotalAccepted(us[..|us| - 1]) + us[|us| - 1].accepted
  }

  ghost predicate ObjectsOk(objects: map<ObjectName, CanonicalObject>, rules: Rules) {
    forall n :: n in objects ==> objects[n].objectId == n.id && ValidObject(n.repo, objects[n], rules)
  }

  ghost predicate Inv(s: State, rules: Rules) {
    && ObjectsOk(s.objects, rules)
    && (forall n :: n in s.records ==> RecordOk(n, s.records[n], s.objects, rules.p))
    && (forall i :: 0 <= i < |s.pushers| ==> PusherOk(s.pushers[i], s.objects, s.records))
    && (forall i :: 0 <= i < |s.pushers| ==> ValidBundle(s.pushers[i].request, rules))
  }

  /** A bucket at rest: valid objects, true records, no pusher yet. */
  ghost predicate AtRest(s: State, rules: Rules) {
    Inv(s, rules) && s.pushers == [] && s.unreported == 0
  }

  lemma PusherOkGrows(u: Pusher, o: map<ObjectName, CanonicalObject>, r: map<RecordName, PushReport>,
                      o': map<ObjectName, CanonicalObject>, r': map<RecordName, PushReport>)
    requires PusherOk(u, o, r) && Grows(o, o') && Grows(r, r')
    ensures PusherOk(u, o', r')
  {}

  /** One step replaces nothing in the bucket. */
  lemma StepGrows(s: State, a: Action, rules: Rules)
    requires Enabled(s, a, rules)
    ensures Grows(s.objects, Next(s, a, rules).objects)
    ensures Grows(s.records, Next(s, a, rules).records)
  {}

  lemma StepKeepsObjects(s: State, a: Action, rules: Rules)
    requires Inv(s, rules) && Enabled(s, a, rules)
    ensures ObjectsOk(Next(s, a, rules).objects, rules)
  {
    if a.Act? && (a.step.PutWritten? || a.step.SilentPut?) {
      var u := s.pushers[a.i];
      assert ValidObject(u.request.repo, u.request.objects[u.next], rules);
    }
  }

  /** The report a pusher stores after its last put is true. */
  lemma OwnReportOk(u: Pusher, s: State, p: Primitives)
    requires PusherOk(u, s.objects, s.records) && u.stage.Recording?
    ensures RecordOk(u.Record(), u.Report(p), s.objects, p)
  {
    var ids := Ids(u.request.objects);
    forall i | 0 <= i < |ids| ensures ObjectName(u.request.repo, ids[i]) in s.objects {
      assert u.Name(i) in s.objects;
    }
  }

  lemma StepKeepsRecords(s: State, a: Action, rules: Rules)
    requires Inv(s, rules) && Enabled(s, a, rules)
    ensures var t := Next(s, a, rules); forall n :: n in t.records ==> RecordOk(n, t.records[n], t.objects, rules.p)
  {
    var t := Next(s, a, rules);
    StepGrows(s, a, rules);
    forall n | n in t.records ensures RecordOk(n, t.records[n], t.objects, rules.p) {
      if n in s.records {
        assert RecordOk(n, s.records[n], s.objects, rules.p);
      } else {
        assert PusherOk(s.pushers[a.i], s.objects, s.records);
        OwnReportOk(s.pushers[a.i], s, rules.p);
      }
    }
  }

  lemma AdvanceKeepsNames(u: Pusher, step: Step, s: State, p: Primitives)
    requires PusherOk(u, s.objects, s.records) && CanTake(u, step, s)
    ensures var w := Advance(u, step, s, p);
            && w.request == u.request && u.next <= w.next <= |w.request.objects|
            && forall i :: 0 <= i < w.next ==> w.Name(i) in ObjectsAfter(u, step, s)
  {
    var w := Advance(u, step, s, p);
    forall i | 0 <= i < w.next ensures w.Name(i) in ObjectsAfter(u, step, s) {
      assert w.Name(i) == u.Name(i);
      if i < u.next { assert u.Name(i) in s.objects; }
    }
  }

  lemma AdvanceKeepsOk(u: Pusher, step: Step, s: State, p: Primitives)
    requires PusherOk(u, s.objects, s.records) && CanTake(u, step, s)
    ensures PusherOk(Advance(u, step, s, p), ObjectsAfter(u, step, s), RecordsAfter(u, step, s, p))
  {
    AdvanceKeepsNames(u, step, s, p);
  }

  /** Every step keeps the invariant. */
  lemma StepKeepsInv(s: State, a: Action, rules: Rules)
    requires Inv(s, rules) && Enabled(s, a, rules)
    ensures Inv(Next(s, a, rules), rules)
  {
    var t := Next(s, a, rules);
    StepGrows(s, a, rules);
    StepKeepsObjects(s, a, rules);
    StepKeepsRecords(s, a, rules);
    if a.Act? { AdvanceKeepsOk(s.pushers[a.i], a.step, s, rules.p); }
    forall i | 0 <= i < |t.pushers|
      ensures PusherOk(t.pushers[i], t.objects, t.records) && ValidBundle(t.pushers[i].request, rules)
    {
      if i < |s.pushers| && (a.Begin? || i != a.i) {
        PusherOkGrows(s.pushers[i], s.objects, s.records, t.objects, t.records);
      }
    }
  }

  /* ----- conservation ----- */

  lemma {:induction false} TotalAfterUpdate(us: seq<Pusher>, i: nat, u: Pusher)
    requires i < |us|
    ensures TotalAccepted(us[i := u]) == TotalAccepted(us) - us[i].accepted + u.accepted
  {
    var vs := us[i := u];
    if i == |us| - 1 {
      assert vs[..|us| - 1] == us[..|us| - 1];
    } else {
      assert vs[..|us| - 1] == us[..|us| - 1][i := u];
      TotalAfterUpdate(us[..|us| - 1], i, u);
    }
  }

  /** Objects that no counter accounts for. */
  function Balance(s: State): int { |s.objects| - TotalAccepted(s.pushers) - s.unreported }

  /** Each step changes the number of objects by what it accepts and what it leaves unreported. */
  lemma StepConserves(s: State, a: Action, rules: Rules)
    requires Enabled(s, a, rules)
    ensures Balance(Next(s, a, rules)) == Balance(s)
  {
    var t := Next(s, a, rules);
    if a.Begin? {
      assert t.pushers[..|s.pushers|] == s.pushers;
    } else {
      var u, w := s.pushers[a.i], t.pushers[a.i];
      TotalAfterUpdate(s.pushers, a.i, w);
      assert |t.objects| - |s.objects| == w.accepted - u.accepted + t.unreported - s.unreported;
    }
  }

  /* ----- over whole runs ----- */

  lemma {:induction false} RunFacts(s: State, run: seq<Action>, t: State, rules: Rules)
    requires Inv(s, rules) && Reaches(s, run, t, rules)
    ensures Inv(t, rules)
    ensures Grows(s.objects, t.objects) && Grows(s.records, t.records)
    ensures Balance(t) == Balance(s)
    decreases |run|
  {
    if run != [] {
      var n := Next(s, run[0], rules);
      StepKeepsInv(s, run[0], rules);
      StepGrows(s, run[0], rules);
      StepConserves(s, run[0], rules);
      RunFacts(n, run[1..], t, rules);
    }
  }

  lemma {:induction false} ReachesThrough(s: State, run: seq<Action>, t: State, i: nat, rules: Rules)
    requires Reaches(s, run, t, rules) && i < |s.pushers| && s.pushers[i].stage.Done?
    ensures i < |t.pushers| && t.pushers[i] == s.pushers[i].(failed := t.pushers[i].failed)
    decreases |run|
  {
    if run != [] { ReachesThrough(Next(s, run[0], rules), run[1..], t, i, rules); }
  }

  /**
   However the pushes interleave, every call that has returned for one repository and key
   returned the one stored record.
   */
  lemma ReturnedReportsAgree(s: State, run: seq<Action>, t: State, i: nat, j: nat, rules: Rules)
    requires AtRest(s, rules) && Reaches(s, run, t, rules)
    requires i < |t.pushers| && j < |t.pushers|
    requires t.pushers[i].stage.Done? && t.pushers[j].stage.Done?
    requires t.pushers[i].Record() == t.pushers[j].Record()
    ensures t.pushers[i].stage.report == t.pushers[j].stage.report
    ensures t.pushers[i].Record() in t.records && t.records[t.pushers[i].Record()] == t.pushers[i].stage.report
  {
    RunFacts(s, run, t, rules);
    assert PusherOk(t.pushers[i], t.objects, t.records) && PusherOk(t.pushers[j], t.objects, t.records);
  }

  /** What a call returned stays the stored record, whatever happens afterwards. */
  lemma ReturnedReportIsPermanent(s: State, first: seq<Action>, t: State, then': seq<Action>, w: State, i: nat, rules: Rules)
    requires AtRest(s, rules) && Reaches(s, first, t, rules) && Reaches(t, then', w, rules)
    requires i < |t.pushers| && t.pushers[i].stage.Done?
    ensures t.pushers[i].Record() in w.records && w.records[t.pushers[i].Record()] == t.pushers[i].stage.report
    ensures i < |w.pushers| && w.pushers[i].stage == t.pushers[i].stage
  {
    RunFacts(s, first, t, rules);
    RunFacts(t, then', w, rules);
    ReachesThrough(t, then', w, i, rules);
    assert PusherOk(t.pushers[i], t.objects, t.records);
  }

  /** In every reachable state a record names only stored objects, and nothing stored is ever replaced. */
  lemma RecordsNameStoredObjects(s: State, run: seq<Action>, t: State, n: RecordName, rules: Rules)
    requires AtRest(s, rules) && Reaches(s, run, t, rules) && n in t.records
    ensures forall id :: id in t.records[n].objectIds ==>
              && ObjectName(n.repo, id) in t.objects
              && t.objects[ObjectName(n.repo, id)].objectId == id
              && ValidObject(n.repo, t.objects[ObjectName(n.repo, id)], rules)
    ensures t.records[n].accepted + t.records[n].duplicate == |t.records[n].objectIds|
    ensures Grows(s.objects, t.objects) && Grows(s.records, t.records)
  {
    RunFacts(s, run, t, rules);
    assert RecordOk(n, t.records[n], t.objects, rules.p);
  }

  predicate IsSilentPut(a: Action) { a.Act? && a.step.SilentPut? }

  lemma {:induction false} UnreportedCounts(s: State, run: seq<Action>, t: State, rules: Rules)
    requires Reaches(s, run, t, rules)
    ensures t.unreported >= s.unreported
    ensures t.unreported == s.unreported <==> forall k :: 0 <= k < |run| ==> !IsSilentPut(run[k])
    decreases |run|
  {
    if run != [] {
      UnreportedCounts(Next(s, run[0], rules), run[1..], t, rules);
      if forall k :: 0 <= k < |run| ==> !IsSilentPut(run[k]) {
        forall k | 0 <= k < |run[1..]| ensures !IsSilentPut(run[1..][k]) { assert run[1..][k] == run[k + 1]; }
      }
      if t.unreported == s.unreported {
        forall k | 0 <= k < |run| ensures !IsSilentPut(run[k]) {
          if k > 0 { assert run[k] == run[1..][k - 1]; }
        }
      }
    }
  }

  /**
   The counts of all pushers, finished or not, never exceed the objects created, and equal
   them exactly when no write went unheard.
   */
  lemma AcceptedIsConserved(s: State, run: seq<Action>, t: State, rules: Rules)
    requires AtRest(s, rules) && Reaches(s, run, t, rules)
    ensures TotalAccepted(t.pushers) <= |t.objects| - |s.objects|
    ensures TotalAccepted(t.pushers) == |t.objects| - |s.objects|
       <==> forall k :: 0 <= k < |run| ==> !IsSilentPut(run[k])
  {
    RunFacts(s, run, t, rules);
    UnreportedCounts(s, run, t, rules);
  }

  /** A call that returned its own report has every object of its bundle in the bucket. */
  lemma OwnBundleStored(s: State, run: seq<Action>, t: State, i: nat, rules: Rules)
    requires AtRest(s, rules) && Reaches(s, run, t, rules) && i < |t.pushers|
    requires t.pushers[i].stage.Done? && t.pushers[i].stage.report.objectIds == Ids(t.pushers[i].request.objects)
    ensures forall k :: 0 <= k < |t.pushers[i].request.objects| ==> t.pushers[i].Name(k) in t.objects
  {
    RunFacts(s, run, t, rules);
    var u := t.pushers[i];
    assert PusherOk(u, t.objects, t.records);
    assert RecordOk(u.Record(), u.stage.report, t.objects, rules.p);
    var ids := Ids(u.request.objects);
    forall k | 0 <= k < |u.request.objects| ensures u.Name(k) in t.objects {
      assert ObjectName(u.request.repo, ids[k]) in t.objects;
    }
  }

  /* ----- what the records of a run report ----- */

  /** The pusher is past its last object, so that its counts are final. */
  predicate Through(u: Pusher) {
    u.next == |u.request.objects| && (u.stage.Recording? || u.stage.Rereading? || u.stage.Done?)
  }

  /** The record tells what this pusher was asked to push and how it fared. */
  predicate MadeBy(u: Pusher, n: RecordName, r: PushReport) {
    && Through(u) && u.Record() == n
    && r.objectIds == Ids(u.request.objects)
    && r.accepted == u.accepted && r.duplicate == u.duplicate
  }

  ghost predicate SomebodyMade(us: seq<Pusher>, n: RecordName, r: PushReport) {
    exists i :: 0 <= i < |us| && MadeBy(us[i], n, r)
  }

  lemma StaysMade(us: seq<Pusher>, i: nat, w: Pusher, n: RecordName, r: PushReport)
    requires i < |us| && SomebodyMade(us, n, r) && (MadeBy(us[i], n, r) ==> MadeBy(w, n, r))
    ensures SomebodyMade(us[i := w], n, r)
  {
    var k :| 0 <= k < |us| && MadeBy(us[k], n, r);
    assert MadeBy(us[i := w][k], n, r);
  }

  lemma AdvanceKeepsMade(u: Pusher, step: Step, s: State, p: Primitives)
    requires PusherOk(u, s.objects, s.records) && CanTake(u, step, s)
    ensures forall n, r :: MadeBy(u, n, r) ==> MadeBy(Advance(u, step, s, p), n, r)
    ensures var w, records := Advance(u, step, s, p), RecordsAfter(u, step, s, p);
            forall n :: n in records && n !in s.records ==> MadeBy(w, n, records[n])
  {
    hide BundleHash, Ids;
  }

  lemma StepKeepsMade(s: State, a: Action, rules: Rules)
    requires Inv(s, rules) && Enabled(s, a, rules)
    ensures var t := Next(s, a, rules);
            && (forall n, r :: SomebodyMade(s.pushers, n, r) ==> SomebodyMade(t.pushers, n, r))
            && (forall n :: n in t.records && n !in s.records ==> SomebodyMade(t.pushers, n, t.records[n]))
  {
    hide MadeBy, PusherOk, Advance, ObjectsAfter, RecordsAfter, ValidBundle, ObjectsOk, RecordOk, CanTake;
    var t := Next(s, a, rules);
    if a.Act? { AdvanceKeepsMade(s.pushers[a.i], a.step, s, rules.p); }
    forall n, r | SomebodyMade(s.pushers, n, r) ensures SomebodyMade(t.pushers, n, r) {
      if a.Begin? {
        var k :| 0 <= k < |s.pushers| && MadeBy(s.pushers[k], n, r);
        assert MadeBy(t.pushers[k], n, r);
      } else {
        StaysMade(s.pushers, a.i, t.pushers[a.i], n, r);
      }
    }
    forall n | n in t.records && n !in s.records ensures SomebodyMade(t.pushers, n, t.records[n]) {
      assert MadeBy(t.pushers[a.i], n, t.records[n]);
    }
  }

  lemma {:induction false} RunKeepsMade(s: State, run: seq<Action>, t: State, rules: Rules)
    requires Inv(s, rules) && Reaches(s, run, t, rules)
    ensures forall n, r :: SomebodyMade(s.pushers, n, r) ==> SomebodyMade(t.pushers, n, r)
    ensures forall n :: n in t.records && n !in s.records ==> SomebodyMade(t.pushers, n, t.records[n])
    decreases |run|
  {
    hide SomebodyMade, Next, Inv, Enabled;
    if run != [] {
      var m := Next(s, run[0], rules);
      StepKeepsInv(s, run[0], rules);
      StepKeepsMade(s, run[0], rules);
      RunKeepsMade(m, run[1..], t, rules);
      RunFacts(m, run[1..], t, rules);
    }
  }

  /**
   Every record made in a run reports one pusher of its key that is through its objects: the ids
   it was sent in order, how many of them it created and how many it found there.
   */
  lemma RecordsReportPushers(s: State, run: seq<Action>, t: State, n: RecordName, rules: Rules)
    requires AtRest(s, rules) && Reaches(s, run, t, rules) && n in t.records && n !in s.records
    ensures exists i :: 0 <= i < |t.pushers| && MadeBy(t.pushers[i], n, t.records[n])
  {
    RunKeepsMade(s, run, t, rules);
  }

  /** The accepted counts of these records added up. */
  function SumAccepted(ns: seq<RecordName>, records: map<RecordName, PushReport>): nat
    requires forall i :: 0 <= i < |ns| ==> ns[i] in records
  {
    if ns == [] then 0 else SumAccepted(ns[..|ns| - 1], records) + records[ns[|ns| - 1]].accepted
  }

  /** The accepted counts of the pushers with one of these keys. */
  function AcceptedUnder(us: seq<Pusher>, names: set<RecordName>): nat {
    if us == [] then 0
    else AcceptedUnder(us[..|us| - 1], names) + if us[|us| - 1].Record() in names then us[|us| - 1].accepted else 0
  }

  lemma {:induction false} AcceptedUnderSome(us: seq<Pusher>, names: set<RecordName>)
    ensures AcceptedUnder(us, names) <= TotalAccepted(us)
  {
    if us != [] { AcceptedUnderSome(us[..|us| - 1], names); }
  }

  lemma {:induction false} AcceptedUnderOneMore(us: seq<Pusher>, names: set<RecordName>, n: RecordName, i: nat)
    requires n !in names && i < |us| && us[i].Record() == n
    ensures AcceptedUnder(us, names + {n}) >= AcceptedUnder(us, names) + us[i].accepted
  {
    var front := us[..|us| - 1];
    if i < |front| {
      AcceptedUnderOneMore(front, names, n, i);
    } else {
      AcceptedUnderMore(front, names, n);
    }
  }

  lemma {:induction false} AcceptedUnderMore(us: seq<Pusher>, names: set<RecordName>, n: RecordName)
    ensures AcceptedUnder(us, names + {n}) >= AcceptedUnder(us, names)
  {
    if us != [] { AcceptedUnderMore(us[..|us| - 1], names, n); }
  }

  predicate NoneTwice(ns: seq<RecordName>) {
    forall i, j :: 0 <= i < j < |ns| ==> ns[i] != ns[j]
  }

  lemma {:induction false} SumIsUnder(ns: seq<RecordName>, records: map<RecordName, PushReport>, us: seq<Pusher>)
    requires NoneTwice(ns) && forall i :: 0 <= i < |ns| ==> ns[i] in records && SomebodyMade(us, ns[i], records[ns[i]])
    ensures SumAccepted(ns, records) <= AcceptedUnder(us, (set n | n in ns))
  {
    if ns != [] {
      var front, last := ns[..|ns| - 1], ns[|ns| - 1];
      SumIsUnder(front, records, us);
      var i :| 0 <= i < |us| && MadeBy(us[i], last, records[last]);
      AcceptedUnderOneMore(us, (set n | n in front), last, i);
      assert ns == front + [last];
      assert (set n | n in ns) == (set n | n in front) + {last};
    }
  }

  /** So the accepted counts of any records made in a run, each taken once, never exceed the objects created. */
  lemma RecordedCountsAreCovered(s: State, run: seq<Action>, t: State, ns: seq<RecordName>, rules: Rules)
    requires AtRest(s, rules) && Reaches(s, run, t, rules)
    requires NoneTwice(ns) && forall i :: 0 <= i < |ns| ==> ns[i] in t.records && ns[i] !in s.records
    ensures SumAccepted(ns, t.records) <= |t.objects| - |s.objects|
  {
    hide Reaches, SomebodyMade;
    RunKeepsMade(s, run, t, rules);
    SumIsUnder(ns, t.records, t.pushers);
    AcceptedUnderSome(t.pushers, (set n | n in ns));
    AcceptedIsConserved(s, run, t, rules);
  }

  /* ----- a push by itself ----- */

  function NamesUpTo(request: PushRequest, k: nat): set<ObjectName>
    requires k <= |request.objects|
  {
    set i | 0 <= i < k :: ObjectName(request.repo, request.objects[i].objectId)
  }

  lemma NamesOneMore(request: PushRequest, k: nat)
    requires k < |request.objects|
    ensures NamesUpTo(request, k + 1) == NamesUpTo(request, k) + {ObjectName(request.repo, request.objects[k].objectId)}
  {}

  /** The bucket holds what it held before and what this push has got through. */
  ghost predicate OnlyBy(s: State, u: Pusher, objects: map<ObjectName, CanonicalObject>, records: map<RecordName, PushReport>) {
    && u.next <= |u.request.objects|
    && objects.Keys == s.objects.Keys + NamesUpTo(u.request, u.next)
    && (forall n :: n in records ==> n in s.records || (n == u.Record() && Through(u)))
  }

  /** One push at most, and nothing in the bucket that was not there before or is not its own. */
  ghost predicate Alone(s: State, t: State) {
    && |t.pushers| <= 1
    && (t.pushers == [] ==> t.objects == s.objects && t.records == s.records)
    && (t.pushers != [] ==> OnlyBy(s, t.pushers[0], t.objects, t.records))
  }

  lemma AdvanceStaysAlone(s: State, u: Pusher, step: Step, t: State, p: Primitives)
    requires PusherOk(u, t.objects, t.records) && CanTake(u, step, t) && !step.SilentPut?
    requires OnlyBy(s, u, t.objects, t.records)
    ensures OnlyBy(s, Advance(u, step, t, p), ObjectsAfter(u, step, t), RecordsAfter(u, step, t, p))
  {
    hide BundleHash, Ids, NamesUpTo;
    if u.next < |u.request.objects| {
      NamesOneMore(u.request, u.next);
      assert u.Name(u.next) == ObjectName(u.request.repo, u.request.objects[u.next].objectId);
    }
  }

  lemma StepStaysAlone(s: State, t: State, a: Action, rules: Rules)
    requires Inv(t, rules) && Alone(s, t) && Enabled(t, a, rules) && !IsSilentPut(a) && |Next(t, a, rules).pushers| <= 1
    ensures Alone(s, Next(t, a, rules))
  {
    hide Advance, ObjectsAfter, RecordsAfter, CanTake, PusherOk, ValidBundle, ObjectsOk, RecordOk;
    if a.Begin? {
      assert NamesUpTo(a.request, 0) == {};
    } else {
      AdvanceStaysAlone(s, t.pushers[0], a.step, t, rules.p);
    }
  }

  lemma {:induction false} PushersStay(s: State, run: seq<Action>, t: State, rules: Rules)
    requires Reaches(s, run, t, rules)
    ensures |s.pushers| <= |t.pushers|
    decreases |run|
  {
    if run != [] { PushersStay(Next(s, run[0], rules), run[1..], t, rules); }
  }

  lemma {:induction false} RunStaysAlone(s: State, m: State, run: seq<Action>, t: State, rules: Rules)
    requires Inv(m, rules) && Alone(s, m) && Reaches(m, run, t, rules) && |t.pushers| <= 1
    requires forall k :: 0 <= k < |run| ==> !IsSilentPut(run[k])
    ensures Alone(s, t)
    decreases |run|
  {
    hide Alone, Inv, Next, Enabled, IsSilentPut;
    if run != [] {
      var n := Next(m, run[0], rules);
      PushersStay(n, run[1..], t, rules);
      StepKeepsInv(m, run[0], rules);
      StepStaysAlone(s, m, run[0], rules);
      RunStaysAlone(s, n, run[1..], t, rules);
    }
  }

  /**
   A push that is alone, under an unused key and with every write heard, reports what is so: how
   many distinct names of its bundle the bucket did not hold, and that the rest were there.
   */
  lemma LonePushReports(s: State, run: seq<Action>, t: State, rules: Rules)
    requires AtRest(s, rules) && Reaches(s, run, t, rules) && |t.pushers| == 1
    requires t.pushers[0].stage.Done? && t.pushers[0].Record() !in s.records
    requires forall k :: 0 <= k < |run| ==> !IsSilentPut(run[k])
    ensures var request, report := t.pushers[0].request, t.pushers[0].stage.report;
            && report.repo == request.repo && report.key == request.key && report.objectIds == Ids(request.objects)
            && report.accepted == |NamesUpTo(request, |request.objects|) - s.objects.Keys|
            && report.duplicate == |request.objects| - report.accepted
            && t.objects.Keys == s.objects.Keys + NamesUpTo(request, |request.objects|)
  {
    hide Reaches, NamesUpTo, Inv, Alone, SomebodyMade, IsSilentPut, AtRest;
    var u := t.pushers[0];
    StartsAlone(s, rules);
    RunFacts(s, run, t, rules);
    RunStaysAlone(s, s, run, t, rules);
    RunKeepsMade(s, run, t, rules);
    LoneFacts(s, t, rules);
    AcceptedIsConserved(s, run, t, rules);
    assert t.pushers[..0] == [] && TotalAccepted(t.pushers) == u.accepted;
    Enlarged(s.objects.Keys, NamesUpTo(u.request, |u.request.objects|));
  }

  lemma StartsAlone(s: State, rules: Rules)
    requires AtRest(s, rules)
    ensures Inv(s, rules) && Alone(s, s)
  {}

  lemma Enlarged<T>(s: set<T>, more: set<T>)
    ensures |s + more| == |s| + |more - s|
  {
    assert s + more == s + (more - s);
  }

  lemma LoneFacts(s: State, t: State, rules: Rules)
    requires Inv(t, rules) && Alone(s, t) && |t.pushers| == 1 && t.pushers[0].stage.Done? && t.pushers[0].Record() !in s.records
    requires forall n :: n in t.records && n !in s.records ==> SomebodyMade(t.pushers, n, t.records[n])
    ensures var u, report := t.pushers[0], t.pushers[0].stage.report;
            && MadeBy(u, u.Record(), report)
            && report.repo == u.request.repo && report.key == u.request.key
            && report.accepted + report.duplicate == |u.request.objects|
            && t.objects.Keys == s.objects.Keys + NamesUpTo(u.request, |u.request.objects|)
  {
    hide NamesUpTo, ValidBundle, ObjectsOk, BundleHash;
    var u := t.pushers[0];
    assert PusherOk(u, t.objects, t.records);
    assert RecordOk(u.Record(), u.stage.report, t.objects, rules.p);
    assert SomebodyMade(t.pushers, u.Record(), u.stage.report);
  }

  /* ----- a replay that stores nothing ----- */

  function EmptyBucket(): State {
    State(map[], map[], [], 0)
  }

  lemma EmptyIsAtRest(rules: Rules)
    ensures AtRest(EmptyBucket(), rules)
  {}

  lemma OneMore(s: State, a: Action, run: seq<Action>, t: State, rules: Rules)
    requires Enabled(s, a, rules) && Reaches(Next(s, a, rules), run, t, rules)
    ensures Reaches(s, [a] + run, t, rules)
  {
    hide Next, Enabled;
    assert ([a] + run)[1..] == run;
  }

  /** An empty bundle goes through, and leaves nothing but its record. */
  lemma EmptyPush(request: PushRequest, rules: Rules) returns (t: State)
    requires ValidBundle(request, rules) && request.objects == []
    ensures forall run, u :: Reaches(t, run, u, rules) ==>
              Reaches(EmptyBucket(), [Begin(request), Act(0, ReadNothing), Act(0, List({})), Act(0, FinishPuts), Act(0, RecordWritten)] + run, u, rules)
    ensures t.objects == map[] && |t.pushers| == 1 && RecordName(request.repo, request.key) in t.records
  {
    hide Reaches, BundleHash, Ids, ValidBundle;
    var s1 := Next(EmptyBucket(), Begin(request), rules);
    var s2 := Next(s1, Act(0, ReadNothing), rules);
    var s3 := Next(s2, Act(0, List({})), rules);
    var s4 := Next(s3, Act(0, FinishPuts), rules);
    t := Next(s4, Act(0, RecordWritten), rules);
    hide Next, Enabled;
    forall run, u | Reaches(t, run, u, rules)
      ensures Reaches(EmptyBucket(), [Begin(request), Act(0, ReadNothing), Act(0, List({})), Act(0, FinishPuts), Act(0, RecordWritten)] + run, u, rules)
    {
      FiveMore(EmptyBucket(), Begin(request), Act(0, ReadNothing), Act(0, List({})), Act(0, FinishPuts), Act(0, RecordWritten), run, u, rules);
    }
  }

  lemma FiveMore(s: State, a: Action, b: Action, c: Action, d: Action, e: Action, run: seq<Action>, t: State, rules: Rules)
    requires Enabled(s, a, rules) && Enabled(Next(s, a, rules), b, rules)
    requires var s2 := Next(Next(s, a, rules), b, rules);
             Enabled(s2, c, rules) && Enabled(Next(s2, c, rules), d, rules)
             && Enabled(Next(Next(s2, c, rules), d, rules), e, rules)
             && Reaches(Next(Next(Next(s2, c, rules), d, rules), e, rules), run, t, rules)
    ensures Reaches(s, [a, b, c, d, e] + run, t, rules)
  {
    hide Next, Enabled, Reaches;
    var s1 := Next(s, a, rules);
    var s2 := Next(s1, b, rules);
    var s3 := Next(s2, c, rules);
    OneMore(Next(s3, d, rules), e, run, t, rules);
    OneMore(s3, d, [e] + run, t, rules);
    OneMore(s2, c, [d] + ([e] + run), t, rules);
    OneMore(s1, b, [c] + ([d] + ([e] + run)), t, rules);
    OneMore(s, a, [b] + ([c] + ([d] + ([e] + run))), t, rules);
    assert [a] + ([b] + ([c] + ([d] + ([e] + run)))) == [a, b, c, d, e] + run;
  }

  /** An empty bundle goes first under the same key; the request's own push then replays its record. */
  lemma ReplayRun(request: PushRequest, rules: Rules) returns (run: seq<Action>, t: State)
    requires ValidBundle(request, rules) && request.objects != []
    ensures Reaches(EmptyBucket(), run, t, rules)
    ensures |t.pushers| == 2 && t.pushers[1].request == request && t.pushers[1].stage.Done? && t.pushers[1].Replayed()
    ensures t.objects == map[]
  {
    hide Reaches;
    var first := PushRequest(request.repo, request.key, []);
    var s := EmptyPush(first, rules);
    var u := Next(s, Begin(request), rules);
    t := Next(u, Act(1, ReadFound), rules);
    NoSteps(t, rules);
    OneMore(u, Act(1, ReadFound), [], t, rules);
    OneMore(s, Begin(request), [Act(1, ReadFound)] + [], t, rules);
    run := [Begin(first), Act(0, ReadNothing), Act(0, List({})), Act(0, FinishPuts), Act(0, RecordWritten)]
           + ([Begin(request)] + ([Act(1, ReadFound)] + []));
  }

  lemma NoSteps(t: State, rules: Rules)
    ensures Reaches(t, [], t, rules)
  {}
}
