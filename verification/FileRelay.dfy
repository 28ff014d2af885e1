/**
 The relay store kept in files. A push writes one file per new object and then its
 idempotency record; it may stop after any number of those writes.
 */
module FileRelay {
  import opened Text
  import opened Identity
  import opened Relay

  datatype FileName = FileName(repo: string, id: string)
  datatype RecordName = RecordName(repo: string, key: string)

  type Files = map<FileName, string>
  type Records = map<RecordName, PushReport>

  datatype Store = Store(files: Files, records: Records)

  /** How far the object writes of one push got; `left` file writes remain before the crash. */
  datatype Progress = Progress(files: Files, accepted: nat, duplicate: nat, left: nat, complete: bool)

  function Put(files: Files, repo: string, o: CanonicalObject, p: Primitives): Files {
    var n := FileName(repo, o.objectId);
    if n in files then files else files[n := ObjectBytes(o, p)]
  }

  /** Each object in turn, unless its file is there already. */
  function PutAll(files: Files, repo: string, objects: seq<CanonicalObject>, p: Primitives): Files {
    if objects == [] then files
    else Put(PutAll(files, repo, objects[..|objects| - 1], p), repo, objects[|objects| - 1], p)
  }

  function WriteObjects(files: Files, repo: string, objects: seq<CanonicalObject>, budget: nat, p: Primitives): Progress {
    if objects == [] then Progress(files, 0, 0, budget, true)
    else WriteOne(WriteObjects(files, repo, objects[..|objects| - 1], budget, p), repo, objects[|objects| - 1], p)
  }

  function WriteOne(q: Progress, repo: string, o: CanonicalObject, p: Primitives): Progress {
    if !q.complete then q
    else if FileName(repo, o.objectId) in q.files then q.(duplicate := q.duplicate + 1)
    else if q.left == 0 then q.(complete := false)
    else Progress(Put(q.files, repo, o, p), q.accepted + 1, q.duplicate, q.left - 1, true)
  }

  /** An object whose file exists with other bytes. */
  predicate Clashes(files: Files, repo: string, o: CanonicalObject, p: Primitives) {
    var n := FileName(repo, o.objectId);
    n in files && files[n] != ObjectBytes(o, p)
  }

  function FirstClash(files: Files, repo: string, objects: seq<CanonicalObject>, p: Primitives): Option<string> {
    if objects == [] then None
    else if Clashes(files, repo, objects[0], p) then Some(objects[0].objectId)
    else FirstClash(files, repo, objects[1..], p)
  }

  function Report(request: PushRequest, q: Progress, p: Primitives): PushReport {
    var ids := FirstOccurrences(Ids(request.objects));
    PushReport(request.repo, request.key, q.accepted, q.duplicate, ids, BundleHash(ids, p))
  }

  function RecordOf(request: PushRequest): RecordName { RecordName(request.repo, request.key) }

  /** One push that can write at most `budget` files: the store it leaves and what it returns. */
  function Push(s: Store, request: PushRequest, budget: nat, rules: Rules): (Store, Result<PushReport>) {
    var fault := FirstFault(request.repo, request.objects, rules);
    if fault.Some? then (s, Err(fault.value))
    else if RecordOf(request) in s.records then (s, Ok(s.records[RecordOf(request)]))
    else
      var clash := FirstClash(s.files, request.repo, request.objects, rules.p);
      if clash.Some? then (s, Err(ObjectConflict(clash.value)))
      else
        var q := WriteObjects(s.files, request.repo, request.objects, budget, rules.p);
        if q.complete && q.left > 0 then
          var report := Report(request, q, rules.p);
          (Store(q.files, s.records[RecordOf(request) := report]), Ok(report))
        else
          (Store(q.files, s.records), Err(Io))
  }

  class FileRelayStore {
    var files: Files
    var records: Records

    constructor ()
      ensures files == map[] && records == map[]
    {
      files, records := map[], map[];
    }

    function Contents(): Store
      reads this
    {
      Store(files, records)
    }

    /** The conflict check of a push, which writes nothing. */
    method FindClash(request: PushRequest, p: Primitives) returns (clash: Option<string>)
      ensures clash == FirstClash(files, request.repo, request.objects, p)
    {
      var objects := request.objects;
      assert objects[0..] == objects;
      for i := 0 to |objects|
        invariant FirstClash(files, request.repo, objects, p) == FirstClash(files, request.repo, objects[i..], p)
      {
        if Clashes(files, request.repo, objects[i], p) {
          return Some(objects[i].objectId);
        }
      }
      clash := None;
    }

    /** The object writes of a push. */
    method WriteBundle(request: PushRequest, budget: nat, p: Primitives)
      returns (accepted: nat, duplicate: nat, left: nat, complete: bool)
      modifies `files
      ensures Progress(files, accepted, duplicate, left, complete)
           == WriteObjects(old(files), request.repo, request.objects, budget, p)
    {
      var objects := request.objects;
      accepted, duplicate, left, complete := 0, 0, budget, true;
      for i := 0 to |objects|
        invariant complete
        invariant Progress(files, accepted, duplicate, left, true)
               == WriteObjects(old(files), request.repo, objects[..i], budget, p)
      {
        assert objects[..i + 1][..i] == objects[..i];
        var n := FileName(request.repo, objects[i].objectId);
        if n in files {
          duplicate := duplicate + 1;
        } else if left == 0 {
          complete := false;
          CrashedStaysCrashed(old(files), request.repo, objects, i + 1, budget, p);
          return;
        } else {
          files := files[n := ObjectBytes(objects[i], p)];
          accepted, left := accepted + 1, left - 1;
        }
      }
      assert objects[..|objects|] == objects;
    }

    /** `push_bundle` */
    method PushBundle(request: PushRequest, budget: nat, rules: Rules) returns (r: Result<PushReport>)
      modifies this
      ensures (Contents(), r) == Push(old(Contents()), request, budget, rules)
    {
      var validation := ValidatedObjectIds(request, rules);
      if validation.Err? {
        return Err(validation.error);
      }
      var record := RecordOf(request);
      if record in records {
        return Ok(records[record]);
      }
      var clash := FindClash(request, rules.p);
      if clash.Some? {
        return Err(ObjectConflict(clash.value));
      }
      var accepted, duplicate, left, complete := WriteBundle(request, budget, rules.p);
      if !complete || left == 0 {
        return Err(Io);
      }
      var report := PushReport(request.repo, request.key, accepted, duplicate, validation.value,
                               BundleHash(validation.value, rules.p));
      records := records[record := report];
      r := Ok(report);
    }
  }

  lemma {:induction false} CrashedStaysCrashed(files: Files, repo: string, objects: seq<CanonicalObject>, i: nat, budget: nat, p: Primitives)
    requires i <= |objects| && !WriteObjects(files, repo, objects[..i], budget, p).complete
    ensures WriteObjects(files, repo, objects, budget, p) == WriteObjects(files, repo, objects[..i], budget, p)
    decreases |objects|
  {
    if i == |objects| {
      assert objects[..i] == objects;
    } else {
      var front := objects[..|objects| - 1];
      assert front[..i] == objects[..i];
      CrashedStaysCrashed(files, repo, front, i, budget, p);
    }
  }

  /* ----- what a push does to the files ----- */

  function Names(repo: string, objects: seq<CanonicalObject>): set<FileName> {
    set i | 0 <= i < |objects| :: FileName(repo, objects[i].objectId)
  }

  lemma NamesSnoc(repo: string, objects: seq<CanonicalObject>)
    requires objects != []
    ensures Names(repo, objects)
         == Names(repo, objects[..|objects| - 1]) + {FileName(repo, objects[|objects| - 1].objectId)}
  {
    var n := |objects| - 1;
    forall x | x in Names(repo, objects)
      ensures x in Names(repo, objects[..n]) + {FileName(repo, objects[n].objectId)}
    {
      var i :| 0 <= i < |objects| && x == FileName(repo, objects[i].objectId);
      if i < n { assert objects[..n][i] == objects[i]; }
    }
    forall x | x in Names(repo, objects[..n]) ensures x in Names(repo, objects) {
      var i :| 0 <= i < n && x == FileName(repo, objects[..n][i].objectId);
      assert objects[i] == objects[..n][i];
    }
  }

  /** Old files keep their bytes and exactly the bundle's names are added. */
  lemma {:induction false} PutAllGrows(files: Files, repo: string, objects: seq<CanonicalObject>, p: Primitives)
    ensures Grows(files, PutAll(files, repo, objects, p))
    ensures PutAll(files, repo, objects, p).Keys == files.Keys + Names(repo, objects)
  {
    if objects != [] {
      PutAllGrows(files, repo, objects[..|objects| - 1], p);
      NamesSnoc(repo, objects);
    }
  }

  /** A new file holds the bytes of the first object of its id. */
  lemma {:induction false} PutAllBytes(files: Files, repo: string, objects: seq<CanonicalObject>, i: nat, p: Primitives)
    requires i < |objects| && FileName(repo, objects[i].objectId) !in files
    requires forall j :: 0 <= j < i ==> objects[j].objectId != objects[i].objectId
    ensures FileName(repo, objects[i].objectId) in PutAll(files, repo, objects, p)
    ensures PutAll(files, repo, objects, p)[FileName(repo, objects[i].objectId)] == ObjectBytes(objects[i], p)
  {
    var front := objects[..|objects| - 1];
    PutAllGrows(files, repo, front, p);
    if i == |front| {
      assert FileName(repo, objects[i].objectId) !in Names(repo, front);
    } else {
      PutAllBytes(files, repo, front, i, p);
    }
  }

  /** The writes of a push, told by counting: complete, or stopped after exactly the budget. */
  lemma {:induction false} WriteObjectsCounts(files: Files, repo: string, objects: seq<CanonicalObject>, budget: nat, p: Primitives)
    ensures var q := WriteObjects(files, repo, objects, budget, p);
            && q.accepted + q.left == budget
            && q.accepted == |q.files| - |files|
            && (q.complete ==> q.accepted + q.duplicate == |objects| && q.files == PutAll(files, repo, objects, p))
            && (!q.complete ==> q.left == 0)
  {
    if objects != [] {
      WriteObjectsCounts(files, repo, objects[..|objects| - 1], budget, p);
    }
  }

  /** Stopped or not, the files are what some leading part of the bundle would leave. */
  lemma {:induction false} WriteObjectsPrefix(files: Files, repo: string, objects: seq<CanonicalObject>, budget: nat, p: Primitives) returns (k: nat)
    ensures k <= |objects|
    ensures WriteObjects(files, repo, objects, budget, p).files == PutAll(files, repo, objects[..k], p)
    ensures WriteObjects(files, repo, objects, budget, p).complete ==> k == |objects|
  {
    WriteObjectsCounts(files, repo, objects, budget, p);
    if WriteObjects(files, repo, objects, budget, p).complete {
      k := |objects|;
      assert objects[..k] == objects;
    } else {
      var front := objects[..|objects| - 1];
      k := WriteObjectsPrefix(files, repo, front, budget, p);
      assert front[..k] == objects[..k];
    }
  }

  lemma NewFileCount(files: Files, repo: string, objects: seq<CanonicalObject>, p: Primitives)
    ensures |PutAll(files, repo, objects, p)| - |files| == |Names(repo, objects) - files.Keys|
  {
    PutAllGrows(files, repo, objects, p);
    var all := PutAll(files, repo, objects, p);
    assert all.Keys == files.Keys + (Names(repo, objects) - files.Keys);
    assert |all.Keys| == |files.Keys| + |Names(repo, objects) - files.Keys|;
  }

  /**
   A push with room to finish either leaves the store alone (a fault, a conflict, a replayed
   record) or adds exactly the bundle. Then the report is the request's own: `accepted` counts the
   distinct new ids, and together with `duplicate` makes up the length of the bundle.
   */
  lemma PushAllOrNothing(s: Store, request: PushRequest, budget: nat, rules: Rules)
    requires budget > |request.objects|
    ensures var (t, r) := Push(s, request, budget, rules);
            var valid := ValidBundle(request, rules);
            var clash := exists i :: 0 <= i < |request.objects| && Clashes(s.files, request.repo, request.objects[i], rules.p);
            && (r.Err? <==> !valid || (RecordOf(request) !in s.records && clash))
            && (r.Err? || RecordOf(request) in s.records ==> t == s)
            && (r.Ok? && RecordOf(request) in s.records ==> r.value == s.records[RecordOf(request)])
            && (r.Ok? && RecordOf(request) !in s.records ==>
                  && t.files == PutAll(s.files, request.repo, request.objects, rules.p)
                  && t.records == s.records[RecordOf(request) := r.value]
                  && var ids, added := FirstOccurrences(Ids(request.objects)), |Names(request.repo, request.objects) - s.files.Keys|;
                  && added <= |request.objects|
                  && r.value == PushReport(request.repo, request.key, added, |request.objects| - added, ids, BundleHash(ids, rules.p)))
  {
    hide BundleHash, FirstFault, FirstClash, WriteObjects, PutAll, Clashes, StoredObjectFault, Names, FirstOccurrences;
    NoFault(request.repo, request.objects, rules);
    FirstClashMeans(s.files, request.repo, request.objects, rules.p);
    WriteObjectsCounts(s.files, request.repo, request.objects, budget, rules.p);
    EnoughBudget(s.files, request.repo, request.objects, budget, rules.p);
    NewFileCount(s.files, request.repo, request.objects, rules.p);
  }

  lemma {:induction false} FirstClashMeans(files: Files, repo: string, objects: seq<CanonicalObject>, p: Primitives)
    ensures FirstClash(files, repo, objects, p).Some?
       <==> exists i :: 0 <= i < |objects| && Clashes(files, repo, objects[i], p)
  {
    if objects != [] {
      FirstClashMeans(files, repo, objects[1..], p);
      if i :| 0 <= i < |objects[1..]| && Clashes(files, repo, objects[1..][i], p) {
        assert objects[i + 1] == objects[1..][i];
      }
      forall i | 0 < i < |objects| && Clashes(files, repo, objects[i], p)
        ensures exists j :: 0 <= j < |objects[1..]| && Clashes(files, repo, objects[1..][j], p)
      {
        assert objects[1..][i - 1] == objects[i];
      }
    }
  }

  /** The object at i is the first whose file exists with other bytes. */
  predicate ClashesFirst(files: Files, repo: string, objects: seq<CanonicalObject>, i: nat, p: Primitives) {
    i < |objects| && Clashes(files, repo, objects[i], p) && forall j :: 0 <= j < i ==> !Clashes(files, repo, objects[j], p)
  }

  lemma {:induction false} FirstClashNames(files: Files, repo: string, objects: seq<CanonicalObject>, i: nat, p: Primitives)
    requires ClashesFirst(files, repo, objects, i, p)
    ensures FirstClash(files, repo, objects, p) == Some(objects[i].objectId)
  {
    hide Clashes;
    if i > 0 {
      assert forall j :: 0 <= j < |objects| - 1 ==> objects[1..][j] == objects[j + 1];
      FirstClashNames(files, repo, objects[1..], i - 1, p);
    }
  }

  /** The error of a push names the first object that is not valid or, in a valid bundle under a new key, the first that clashes. */
  lemma PushErrors(s: Store, request: PushRequest, budget: nat, i: nat, rules: Rules)
    ensures FirstInvalid(request.repo, request.objects, i, rules) ==>
              Push(s, request, budget, rules).1
                == Err(InvalidObject(request.objects[i].objectId, StoredObjectFault(request.repo, request.objects[i], rules).value))
    ensures ValidBundle(request, rules) && RecordOf(request) !in s.records && ClashesFirst(s.files, request.repo, request.objects, i, rules.p) ==>
              Push(s, request, budget, rules).1 == Err(ObjectConflict(request.objects[i].objectId))
  {
    hide StoredObjectFault, WriteObjects, Report, FirstFault, FirstClash, Clashes;
    NoFault(request.repo, request.objects, rules);
    if FirstInvalid(request.repo, request.objects, i, rules) { FirstFaultMeans(request.repo, request.objects, i, rules); }
    if ClashesFirst(s.files, request.repo, request.objects, i, rules.p) { FirstClashNames(s.files, request.repo, request.objects, i, rules.p); }
  }

  lemma {:induction false} EnoughBudget(files: Files, repo: string, objects: seq<CanonicalObject>, budget: nat, p: Primitives)
    requires budget > |objects|
    ensures var q := WriteObjects(files, repo, objects, budget, p); q.complete && q.left >= budget - |objects|
  {
    if objects != [] { EnoughBudget(files, repo, objects[..|objects| - 1], budget, p); }
  }

  /* ----- crashes at any write ----- */

  /** A record names only ids whose object file exists. */
  ghost predicate RecordsClosed(s: Store) {
    forall n :: n in s.records ==>
      forall id :: id in s.records[n].objectIds ==> FileName(n.repo, id) in s.files
  }

  lemma IdsInNames(repo: string, objects: seq<CanonicalObject>, id: string)
    requires id in Ids(objects)
    ensures FileName(repo, id) in Names(repo, objects)
  {
    var i :| 0 <= i < |Ids(objects)| && Ids(objects)[i] == id;
    assert objects[i].objectId == id;
  }

  /** What any push does: some leading part of the bundle is put, and a record is added only after all of it. */
  lemma PushOutcome(s: Store, request: PushRequest, budget: nat, rules: Rules) returns (k: nat)
    ensures var (t, r) := Push(s, request, budget, rules);
            && k <= |request.objects|
            && t.files == PutAll(s.files, request.repo, request.objects[..k], rules.p)
            && (t.records == s.records
                || (k == |request.objects| && r.Ok? && RecordOf(request) !in s.records
                    && t.records == s.records[RecordOf(request) := r.value]
                    && r.value.objectIds == FirstOccurrences(Ids(request.objects))))
            && (r.Ok? ==> k == |request.objects| || (RecordOf(request) in s.records && t == s))
  {
    if Push(s, request, budget, rules).0 == s {
      k := 0;
      if RecordOf(request) !in s.records {
        k := WriteObjectsPrefix(s.files, request.repo, request.objects, budget, rules.p);
        if Push(s, request, budget, rules).1.Err? { k := 0; }
      }
    } else {
      k := WriteObjectsPrefix(s.files, request.repo, request.objects, budget, rules.p);
    }
  }

  /** Closed records stay closed when files grow. */
  lemma ClosedRecordsGrow(s: Store, t: Store, request: PushRequest, report: PushReport)
    requires RecordsClosed(s) && Grows(s.files, t.files)
    requires t.records == s.records[RecordOf(request) := report]
    requires report.objectIds == FirstOccurrences(Ids(request.objects))
    requires Names(request.repo, request.objects) <= t.files.Keys
    ensures RecordsClosed(t)
  {
    forall n, id | n in t.records && id in t.records[n].objectIds ensures FileName(n.repo, id) in t.files {
      if n == RecordOf(request) {
        IdsInNames(request.repo, request.objects, id);
      } else {
        assert FileName(n.repo, id) in s.files;
      }
    }
  }

  /** Wherever it stops, a push replaces nothing and leaves every record closed. */
  lemma PushSafe(s: Store, request: PushRequest, budget: nat, rules: Rules)
    requires RecordsClosed(s)
    ensures var t := Push(s, request, budget, rules).0;
            RecordsClosed(t) && Grows(s.files, t.files) && Grows(s.records, t.records)
  {
    var (t, r) := Push(s, request, budget, rules);
    var k := PushOutcome(s, request, budget, rules);
    PutAllGrows(s.files, request.repo, request.objects[..k], rules.p);
    if t.records != s.records {
      assert request.objects[..k] == request.objects;
      ClosedRecordsGrow(s, t, request, r.value);
    }
  }

  datatype Call = Call(request: PushRequest, budget: nat)

  function PushAll(s: Store, calls: seq<Call>, rules: Rules): Store {
    if calls == [] then s
    else
      var last := calls[|calls| - 1];
      Push(PushAll(s, calls[..|calls| - 1], rules), last.request, last.budget, rules).0
  }

  /** Over any sequence of pushes, each stopped anywhere, records stay closed and nothing is replaced. */
  lemma {:induction false} PushAllSafe(s: Store, calls: seq<Call>, rules: Rules)
    requires RecordsClosed(s)
    ensures var t := PushAll(s, calls, rules);
            RecordsClosed(t) && Grows(s.files, t.files) && Grows(s.records, t.records)
  {
    if calls != [] {
      var last := calls[|calls| - 1];
      PushAllSafe(s, calls[..|calls| - 1], rules);
      PushSafe(PushAll(s, calls[..|calls| - 1], rules), last.request, last.budget, rules);
    }
  }
}
