/**
 `relay push`: the local objects go to the relay in chunks, each chunk under its own
 idempotency key, and an interrupted push is simply run again.
 */
module RelayPush {
  import opened Text
  import opened Json
  import opened Identity
  import opened Printing
  import opened Reading
  import opened Relay
  import opened FileRelay
  import GcsRelay

  /** One push of a fixed object list: what every retry repeats. */
  datatype Job = Job(repo: string, key: string, objects: seq<CanonicalObject>, size: nat) {
    predicate Valid() { size > 0 }

    /** Number of chunks sent: the length divided by the size, rounded up. */
    function Chunks(): nat
      requires Valid()
    {
      ChunksOf(|objects|, size)
    }

    /** Where chunk c begins in the list. */
    function Start(c: nat): (i: nat)
      ensures i <= |objects|
    {
      if c == 0 then 0
      else if Start(c - 1) + size <= |objects| then Start(c - 1) + size
      else |objects|
    }

    function Chunk(c: nat): seq<CanonicalObject>
      requires Valid() && c < Chunks()
    {
      StartsAscend(this, c);
      objects[Start(c)..Start(c + 1)]
    }

    /** The count written in a chunk key: at least one. */
    function KeyCount(): nat
      requires Valid()
    {
      if Chunks() == 0 then 1 else Chunks()
    }

    function ChunkKey(c: nat): string
      requires Valid()
    {
      if KeyCount() == 1 then key
      else key + ":chunk:" + Padded4(c + 1) + ("-of-" + Padded4(KeyCount()))
    }

    function Request(c: nat): PushRequest
      requires Valid() && c < Chunks()
    {
      PushRequest(repo, ChunkKey(c), Chunk(c))
    }
  }

  lemma {:induction false} ChunksLeft(j: Job, c: nat)
    requires j.Valid() && c <= j.Chunks()
    ensures ChunksOf(|j.objects| - j.Start(c), j.size) == j.Chunks() - c
  {
    if c > 0 { ChunksLeft(j, c - 1); }
  }

  lemma StartsAscend(j: Job, c: nat)
    requires j.Valid() && c < j.Chunks()
    ensures j.Start(c) < j.Start(c + 1)
    ensures c + 1 == j.Chunks() ==> j.Start(c + 1) == |j.objects|
  {
    ChunksLeft(j, c);
    ChunksLeft(j, c + 1);
  }

  /** The default key: a hash of the repository and the ids, so of nothing else. */
  function DerivedKey(repo: string, ids: seq<string>, p: Primitives): string {
    StableHash(Obj(KeyMembers(repo, ids)), p)
  }

  function KeyMembers(repo: string, ids: seq<string>): seq<Member> {
    [Member("repo_id", Str(repo)), Member("object_ids", StrArray(ids))]
  }

  lemma DerivedKeyInjective(r1: string, a: seq<string>, r2: string, b: seq<string>, p: Primitives)
    requires p.Sound()
    ensures DerivedKey(r1, a, p) == DerivedKey(r2, b, p) <==> r1 == r2 && a == b
  {
    var ms, ns := KeyMembers(r1, a), KeyMembers(r2, b);
    StableHashDecides(Obj(ms), Obj(ns), p);
    ParallelMembers(ms, ns);
    StrArrayEquivalent(a, b);
    assert Equivalent(ms[0].value, ns[0].value) <==> r1 == r2;
    assert Equivalent(ms[1].value, ns[1].value) <==> a == b;
  }

  /** A derived key is the hash of the repository and the ids in order, each under its name. */
  lemma DerivedKeySays(repo: string, ids: seq<string>, p: Primitives, float: FloatReader)
    requires SoundSpelling(p.spell) && Undoes(float, p.spell)
    ensures HashOf(DerivedKey(repo, ids, p), map["repo_id" := Str(repo), "object_ids" := StrArray(ids)], p, float)
  {
    hide Canonical, HashOf, StableHash, WellFormed, StrArray;
    ScalarsCanonical(repo, 0);
    StrArrayCanonical(ids);
    var ms := KeyMembers(repo, ids);
    assert ms[0].key == "repo_id" && ms[1].key == "object_ids";
    KeyMembersWellFormed(repo, ids);
    FieldsRead(ms, map["repo_id" := Str(repo), "object_ids" := StrArray(ids)], p, float);
  }

  lemma KeyMembersWellFormed(repo: string, ids: seq<string>)
    ensures WellFormed(Obj(KeyMembers(repo, ids)))
  {}

  predicate Digits(s: string) {
    forall i :: 0 <= i < |s| ==> IsDigit(s[i])
  }

  /** Four digits, or more with no zero in front, that denote n. */
  predicate Numeral(s: string, n: nat) {
    Digits(s) && Evaluate(s) == n && (|s| == 4 || (|s| > 4 && s[0] != '0'))
  }

  /** A list that fits in one chunk goes under the plain key; otherwise each key tells the chunk's place and their number. */
  lemma ChunkKeySays(j: Job, c: nat) returns (place: string, count: string)
    requires j.Valid()
    ensures |j.objects| <= j.size ==> j.ChunkKey(c) == j.key
    ensures |j.objects| > j.size ==>
              && Numeral(place, c + 1) && Numeral(count, (|j.objects| + j.size - 1) / j.size)
              && j.ChunkKey(c) == j.key + ":chunk:" + place + "-of-" + count
  {
    hide ChunksOf, Padded4;
    place, count := Padded4(c + 1), Padded4(j.KeyCount());
    ChunksOfRoundsUp(|j.objects|, j.size);
    OneChunk(|j.objects|, j.size);
    Padded4Denotes(c + 1);
    Padded4Denotes(j.KeyCount());
    assert (":chunk:" + place) + ("-of-" + count) == ":chunk:" + place + "-of-" + count;
    assert j.key + ":chunk:" + place + ("-of-" + count) == j.key + ":chunk:" + place + "-of-" + count;
  }

  lemma OneChunk(n: nat, size: nat)
    requires size > 0
    ensures ChunksOf(n, size) <= 1 <==> n <= size
  {
    if n > size { PieceExists(n, size, 1); }
  }

  /** Different chunks have different keys. */
  lemma ChunkKeysDiffer(j: Job, c: nat, d: nat)
    requires j.Valid() && c < j.Chunks() && d < j.Chunks() && j.ChunkKey(c) == j.ChunkKey(d)
    ensures c == d
  {
    hide Padded4, Evaluate, ChunksOf;
    if j.KeyCount() > 1 {
      Between(j.key + ":chunk:", Padded4(c + 1), Padded4(d + 1), "-of-" + Padded4(j.KeyCount()));
      Padded4Denotes(c + 1);
      Padded4Denotes(d + 1);
    } else {
      OnlyChunk(j);
    }
  }

  lemma Between(h: string, x: string, y: string, tail: string)
    requires h + x + tail == h + y + tail
    ensures x == y
  {
    assert |h + x + tail| == |h| + |x| + |tail| && |h + y + tail| == |h| + |y| + |tail|;
    assert x == (h + x + tail)[|h|..|h| + |x|] && y == (h + y + tail)[|h|..|h| + |y|];
  }

  lemma OnlyChunk(j: Job)
    requires j.Valid() && j.KeyCount() == 1
    ensures j.Chunks() <= 1
  {}

  /* ----- one attempt ----- */

  /**
   Send the chunks from c on. Chunk by chunk `budgets` says how many files the relay may
   write; the attempt ends early when a push fails or the list runs out (the client stopped).
   */
  function Attempt(s: Store, j: Job, c: nat, budgets: seq<nat>, rules: Rules): (Store, bool)
    requires j.Valid()
    decreases |budgets|
  {
    if c >= j.Chunks() then (s, true)
    else if budgets == [] then (s, false)
    else
      var (t, r) := Push(s, j.Request(c), budgets[0], rules);
      if r.Err? then (t, false) else Attempt(t, j, c + 1, budgets[1..], rules)
  }

  /** The reports of the chunks sent, up to the first failure. */
  function Reports(s: Store, j: Job, c: nat, budgets: seq<nat>, rules: Rules): seq<PushReport>
    requires j.Valid()
    decreases |budgets|
  {
    if c >= j.Chunks() || budgets == [] then []
    else
      var (t, r) := Push(s, j.Request(c), budgets[0], rules);
      if r.Err? then [] else [r.value] + Reports(t, j, c + 1, budgets[1..], rules)
  }

  datatype Tally = Tally(accepted: nat, duplicate: nat, ids: seq<string>)

  /** Counts added up and id lists joined. */
  function TallyOf(reports: seq<PushReport>): Tally {
    if reports == [] then Tally(0, 0, [])
    else
      var first, rest := reports[0], TallyOf(reports[1..]);
      Tally(first.accepted + rest.accepted, first.duplicate + rest.duplicate, first.objectIds + rest.ids)
  }

  /** The job of one command line: a missing key is derived, a chunk size of zero is one. */
  function JobOf(repo: string, key: Option<string>, objects: seq<CanonicalObject>, chunkSize: nat, p: Primitives): (j: Job)
    ensures j.Valid()
  {
    Job(repo, if key.Some? then key.value else DerivedKey(repo, Ids(objects), p), objects,
        if chunkSize == 0 then 1 else chunkSize)
  }

  /** A given key is used as it is and a missing one derived; no size is a size of one. */
  lemma JobMeans(repo: string, key: Option<string>, objects: seq<CanonicalObject>, chunkSize: nat, p: Primitives, float: FloatReader)
    requires SoundSpelling(p.spell) && Undoes(float, p.spell)
    ensures var j := JobOf(repo, key, objects, chunkSize, p);
            && j.repo == repo && j.objects == objects
            && (forall k :: key == Some(k) ==> j.key == k)
            && (key == None ==> HashOf(j.key, map["repo_id" := Str(repo), "object_ids" := StrArray(Ids(objects))], p, float))
            && (chunkSize > 0 ==> j.size == chunkSize) && (chunkSize == 0 ==> j.size == 1)
  {
    hide HashOf, DerivedKey, StrArray;
    DerivedKeySays(repo, Ids(objects), p, float);
  }

  lemma {:induction false} StartIs(j: Job, c: nat)
    requires j.Valid()
    ensures j.Start(c) == if c * j.size < |j.objects| then c * j.size else |j.objects|
  {
    if c > 0 {
      StartIs(j, c - 1);
      assert c * j.size == (c - 1) * j.size + j.size;
    }
  }

  /** Chunk c is the part of the list from c times the size on, of that size or to the end. */
  lemma ChunkIs(j: Job, c: nat)
    requires j.Valid() && c < j.Chunks()
    ensures c * j.size < |j.objects|
    ensures j.Chunk(c) == if (c + 1) * j.size <= |j.objects| then j.objects[c * j.size..(c + 1) * j.size] else j.objects[c * j.size..]
  {
    hide ChunksOf;
    PieceExists(|j.objects|, j.size, c);
    StartIs(j, c);
    StartIs(j, c + 1);
    StartsAscend(j, c);
  }

  /** The client's loop over the chunks. */
  method SendChunks(relay: FileRelayStore, j: Job, budgets: seq<nat>, rules: Rules)
    returns (complete: bool, accepted: nat, duplicate: nat, pushed: seq<string>)
    requires j.Valid()
    modifies relay
    ensures (relay.Contents(), complete) == Attempt(old(relay.Contents()), j, 0, budgets, rules)
    ensures complete ==> Tally(accepted, duplicate, pushed) == TallyOf(Reports(old(relay.Contents()), j, 0, budgets, rules))
  {
    hide Push, Attempt, Reports, TallyOf, Job.ChunkKey, Job.Chunk, Job.Chunks;
    var c := 0;
    accepted, duplicate, pushed := 0, 0, [];
    ghost var s0 := relay.Contents();
    assert budgets[0..] == budgets;
    while c < j.Chunks()
      invariant c <= j.Chunks() && c <= |budgets|
      invariant Attempt(s0, j, 0, budgets, rules) == Attempt(relay.Contents(), j, c, budgets[c..], rules)
      invariant TallyOf(Reports(s0, j, 0, budgets, rules))
             == Joined(accepted, duplicate, pushed, TallyOf(Reports(relay.Contents(), j, c, budgets[c..], rules)))
    {
      AttemptStops(relay.Contents(), j, c, budgets[c..], rules);
      if c == |budgets| {
        complete := false;
        return;
      }
      ghost var before := relay.Contents();
      var report := relay.PushBundle(j.Request(c), budgets[c], rules);
      if report.Err? {
        complete := false;
        return;
      }
      assert budgets[c..][1..] == budgets[c + 1..];
      TallyStep(before, j, c, budgets[c..], rules);
      accepted := accepted + report.value.accepted;
      duplicate := duplicate + report.value.duplicate;
      pushed := pushed + report.value.objectIds;
      c := c + 1;
    }
    AttemptStops(relay.Contents(), j, c, budgets[c..], rules);
    complete := true;
  }

  function Joined(accepted: nat, duplicate: nat, ids: seq<string>, rest: Tally): Tally {
    Tally(accepted + rest.accepted, duplicate + rest.duplicate, ids + rest.ids)
  }

  /** `relay push` */
  method RunPush(relay: FileRelayStore, repo: string, key: Option<string>, objects: seq<CanonicalObject>, chunkSize: nat,
                 budgets: seq<nat>, rules: Rules)
    returns (r: Option<PushReport>)
    modifies relay
    ensures var j := JobOf(repo, key, objects, chunkSize, rules.p);
            && (relay.Contents(), r.Some?) == Attempt(old(relay.Contents()), j, 0, budgets, rules)
            && (r.Some? ==>
                  var tally := TallyOf(Reports(old(relay.Contents()), j, 0, budgets, rules));
                  r.value == PushReport(repo, j.key, tally.accepted, tally.duplicate, tally.ids, BundleHash(Ids(objects), rules.p)))
  {
    hide Push, Attempt, Reports, TallyOf, BundleHash, DerivedKey;
    var j := JobOf(repo, key, objects, chunkSize, rules.p);
    var complete, accepted, duplicate, pushed := SendChunks(relay, j, budgets, rules);
    r := if complete then Some(PushReport(repo, j.key, accepted, duplicate, pushed, BundleHash(Ids(objects), rules.p))) else None;
  }

  /** How an attempt ends: all chunks sent, the client stopped, or a push failed. */
  lemma AttemptStops(s: Store, j: Job, c: nat, budgets: seq<nat>, rules: Rules)
    requires j.Valid()
    ensures c >= j.Chunks() ==> Attempt(s, j, c, budgets, rules) == (s, true) && TallyOf(Reports(s, j, c, budgets, rules)) == Tally(0, 0, [])
    ensures c < j.Chunks() && budgets == [] ==> Attempt(s, j, c, budgets, rules) == (s, false)
    ensures c < j.Chunks() && budgets != [] && Push(s, j.Request(c), budgets[0], rules).1.Err? ==>
              Attempt(s, j, c, budgets, rules) == (Push(s, j.Request(c), budgets[0], rules).0, false)
  {
    hide Push;
  }

  lemma TallyStep(s: Store, j: Job, c: nat, budgets: seq<nat>, rules: Rules)
    requires j.Valid() && c < j.Chunks() && budgets != [] && Push(s, j.Request(c), budgets[0], rules).1.Ok?
    ensures var (t, r) := Push(s, j.Request(c), budgets[0], rules);
            && Attempt(s, j, c, budgets, rules) == Attempt(t, j, c + 1, budgets[1..], rules)
            && TallyOf(Reports(s, j, c, budgets, rules))
                 == Joined(r.value.accepted, r.value.duplicate, r.value.objectIds, TallyOf(Reports(t, j, c + 1, budgets[1..], rules)))
  {
    hide Push;
    var (t, r) := Push(s, j.Request(c), budgets[0], rules);
    assert ([r.value] + Reports(t, j, c + 1, budgets[1..], rules))[1..] == Reports(t, j, c + 1, budgets[1..], rules);
  }

  /** Any number of attempts, one after the other. */
  function Attempts(s: Store, j: Job, tries: seq<seq<nat>>, rules: Rules): Store
    requires j.Valid()
  {
    if tries == [] then s
    else Attempt(Attempts(s, j, tries[..|tries| - 1], rules), j, 0, tries[|tries| - 1], rules).0
  }

  /* ----- putting parts of one list ----- */

  lemma {:induction false} PutAllConcat(files: Files, repo: string, a: seq<CanonicalObject>, b: seq<CanonicalObject>, p: Primitives)
    ensures PutAll(PutAll(files, repo, a, p), repo, b, p) == PutAll(files, repo, a + b, p)
  {
    if b == [] {
      assert a + b == a;
    } else {
      var b' := b[..|b| - 1];
      assert (a + b)[..|a + b| - 1] == a + b';
      PutAllConcat(files, repo, a, b', p);
    }
  }

  lemma {:induction false} PutAllIdle(files: Files, repo: string, objects: seq<CanonicalObject>, p: Primitives)
    requires Names(repo, objects) <= files.Keys
    ensures PutAll(files, repo, objects, p) == files
  {
    if objects != [] {
      NamesSnoc(repo, objects);
      PutAllIdle(files, repo, objects[..|objects| - 1], p);
    }
  }

  lemma NamesOfPart(repo: string, objects: seq<CanonicalObject>, lo: nat, hi: nat, k: nat)
    requires lo <= hi <= k <= |objects|
    ensures Names(repo, objects[lo..hi]) <= Names(repo, objects[..k])
  {
    forall x | x in Names(repo, objects[lo..hi]) ensures x in Names(repo, objects[..k]) {
      var i :| 0 <= i < hi - lo && x == FileName(repo, objects[lo..hi][i].objectId);
      assert objects[..k][lo + i] == objects[lo..hi][i];
    }
  }

  /** Objects already put once are passed over. */
  lemma PutOverlap(files: Files, repo: string, a: seq<CanonicalObject>, b: seq<CanonicalObject>, c: seq<CanonicalObject>, p: Primitives)
    requires Names(repo, b) <= Names(repo, a)
    ensures PutAll(PutAll(files, repo, a, p), repo, b + c, p) == PutAll(files, repo, a + c, p)
  {
    PutAllGrows(files, repo, a, p);
    PutAllIdle(PutAll(files, repo, a, p), repo, b, p);
    PutAllConcat(PutAll(files, repo, a, p), repo, b, c, p);
    PutAllConcat(files, repo, a, c, p);
  }

  function Max(a: nat, b: nat): nat { if a > b then a else b }

  /** Putting a stretch that begins inside what is already put only moves the end forward. */
  lemma PutStretch(files: Files, repo: string, objects: seq<CanonicalObject>, lo: nat, hi: nat, k: nat, p: Primitives)
    requires lo <= hi <= |objects| && lo <= k <= |objects|
    ensures PutAll(PutAll(files, repo, objects[..k], p), repo, objects[lo..hi], p)
         == PutAll(files, repo, objects[..Max(hi, k)], p)
  {
    var mid := if hi <= k then hi else k;
    NamesOfPart(repo, objects, lo, mid, k);
    PutOverlap(files, repo, objects[..k], objects[lo..mid], objects[mid..hi], p);
    Slices(objects, lo, mid, hi, k);
  }

  lemma Slices<T>(s: seq<T>, lo: nat, mid: nat, hi: nat, k: nat)
    requires lo <= mid <= hi <= |s| && k <= |s| && mid == (if hi <= k then hi else k)
    ensures s[lo..hi] == s[lo..mid] + s[mid..hi]
    ensures s[..k] + s[mid..hi] == s[..Max(hi, k)]
  {}

  /* ----- the invariant of a retried push ----- */

  /** A record under the key of a chunk means that the chunk is stored. */
  ghost predicate ChunkRecordsTrue(s: Store, j: Job)
    requires j.Valid()
  {
    forall c :: 0 <= c < j.Chunks() && RecordName(j.repo, j.ChunkKey(c)) in s.records
      ==> Names(j.repo, j.Chunk(c)) <= s.files.Keys
  }

  /** The store holds what s0 held and the first k objects of the job. */
  ghost predicate Progressed(s0: Store, s: Store, j: Job, k: nat, p: Primitives)
    requires j.Valid()
  {
    && k <= |j.objects|
    && s.files == PutAll(s0.files, j.repo, j.objects[..k], p)
    && ChunkRecordsTrue(s, j)
  }

  lemma ChunkKeepsRecordsTrue(s: Store, j: Job, c: nat, budget: nat, rules: Rules)
    requires j.Valid() && c < j.Chunks() && ChunkRecordsTrue(s, j)
    ensures ChunkRecordsTrue(Push(s, j.Request(c), budget, rules).0, j)
  {
    var request := j.Request(c);
    var t := Push(s, request, budget, rules).0;
    var k := PushOutcome(s, request, budget, rules);
    PutAllGrows(s.files, request.repo, request.objects[..k], rules.p);
    forall d | 0 <= d < j.Chunks() && RecordName(j.repo, j.ChunkKey(d)) in t.records
      ensures Names(j.repo, j.Chunk(d)) <= t.files.Keys
    {
      if RecordName(j.repo, j.ChunkKey(d)) !in s.records {
        ChunkKeysDiffer(j, c, d);
        assert request.objects[..k] == request.objects;
      }
    }
  }

  /** One chunk, replayed or written or cut short, puts a stretch of the list beginning where the chunk does. */
  lemma ChunkEffect(s: Store, j: Job, c: nat, budget: nat, rules: Rules) returns (hi: nat)
    requires j.Valid() && c < j.Chunks() && ChunkRecordsTrue(s, j)
    ensures var (t, r) := Push(s, j.Request(c), budget, rules);
            && j.Start(c) <= hi <= |j.objects|
            && (r.Ok? ==> hi == j.Start(c + 1))
            && t.files == PutAll(s.files, j.repo, j.objects[j.Start(c)..hi], rules.p)
  {
    var k := PushOutcome(s, j.Request(c), budget, rules);
    var (t, r) := Push(s, j.Request(c), budget, rules);
    hi := StretchOf(s.files, t.files, j, c, k, r.Ok?, rules.p);
  }

  lemma SliceOfSlice<T>(s: seq<T>, lo: nat, hi: nat, k: nat)
    requires lo <= hi <= |s| && k <= hi - lo
    ensures s[lo..hi][..k] == s[lo..lo + k]
  {}

  /** The stretch of the whole list that a leading part of a chunk is. */
  lemma StretchOf(before: Files, after: Files, j: Job, c: nat, k: nat, ok: bool, p: Primitives) returns (hi: nat)
    requires j.Valid() && c < j.Chunks() && k <= |j.Chunk(c)|
    requires after == PutAll(before, j.repo, j.Chunk(c)[..k], p)
    requires ok ==> k == |j.Chunk(c)| || (Names(j.repo, j.Chunk(c)) <= before.Keys && after == before)
    ensures j.Start(c) <= hi <= |j.objects|
    ensures ok ==> hi == j.Start(c + 1)
    ensures after == PutAll(before, j.repo, j.objects[j.Start(c)..hi], p)
  {
    StartsAscend(j, c);
    var lo, end := j.Start(c), j.Start(c + 1);
    assert j.Chunk(c) == j.objects[lo..end];
    SliceOfSlice(j.objects, lo, end, k);
    hi := lo + k;
    if ok && hi != end {
      PutAllIdle(before, j.repo, j.Chunk(c), p);
      hi := end;
    }
  }

  /** One chunk, however it ends, carries the progress on. */
  lemma ChunkProgresses(s0: Store, s: Store, j: Job, c: nat, k: nat, budget: nat, rules: Rules) returns (k': nat)
    requires j.Valid() && c < j.Chunks() && Progressed(s0, s, j, k, rules.p) && j.Start(c) <= k
    ensures var (t, r) := Push(s, j.Request(c), budget, rules);
            k <= k' && Progressed(s0, t, j, k', rules.p) && (r.Ok? ==> j.Start(c + 1) <= k')
  {
    ChunkKeepsRecordsTrue(s, j, c, budget, rules);
    var hi := ChunkEffect(s, j, c, budget, rules);
    PutStretch(s0.files, j.repo, j.objects, j.Start(c), hi, k, rules.p);
    k' := Max(hi, k);
  }

  lemma {:induction false} AttemptProgresses(s0: Store, s: Store, j: Job, c: nat, k: nat, budgets: seq<nat>, rules: Rules) returns (k': nat)
    requires j.Valid() && Progressed(s0, s, j, k, rules.p) && j.Start(c) <= k && c <= j.Chunks()
    ensures var (t, complete) := Attempt(s, j, c, budgets, rules);
            Progressed(s0, t, j, k', rules.p) && (complete ==> k' == |j.objects|)
    decreases |budgets|
  {
    hide Push;
    k' := k;
    if c == j.Chunks() {
      if c > 0 { StartsAscend(j, c - 1); }
    } else if budgets != [] {
      k' := ChunkProgresses(s0, s, j, c, k, budgets[0], rules);
      var (t, r) := Push(s, j.Request(c), budgets[0], rules);
      if r.Ok? {
        k' := AttemptProgresses(s0, t, j, c + 1, k', budgets[1..], rules);
      }
    }
  }

  lemma {:induction false} AttemptsProgress(s0: Store, j: Job, tries: seq<seq<nat>>, rules: Rules) returns (k: nat)
    requires j.Valid() && ChunkRecordsTrue(s0, j)
    ensures Progressed(s0, Attempts(s0, j, tries, rules), j, k, rules.p)
  {
    if tries == [] {
      k := 0;
    } else {
      var front := tries[..|tries| - 1];
      k := AttemptsProgress(s0, j, front, rules);
      k := AttemptProgresses(s0, Attempts(s0, j, front, rules), j, 0, k, tries[|tries| - 1], rules);
    }
  }

  /**
   After any number of interrupted attempts, one that completes leaves every object of the
   job on the relay, and exactly the files that putting the whole list once would leave.
   */
  lemma RetriedPushCompletes(s0: Store, j: Job, tries: seq<seq<nat>>, last: seq<nat>, rules: Rules)
    requires j.Valid() && ChunkRecordsTrue(s0, j)
    requires Attempt(Attempts(s0, j, tries, rules), j, 0, last, rules).1
    ensures var t := Attempt(Attempts(s0, j, tries, rules), j, 0, last, rules).0;
            && t.files == PutAll(s0.files, j.repo, j.objects, rules.p)
            && Names(j.repo, j.objects) <= t.files.Keys
  {
    var k := AttemptsProgress(s0, j, tries, rules);
    var k' := AttemptProgresses(s0, Attempts(s0, j, tries, rules), j, 0, k, last, rules);
    assert j.objects[..|j.objects|] == j.objects;
    PutAllGrows(s0.files, j.repo, j.objects, rules.p);
  }

  /** So it agrees, file for file, with pushing the list as one bundle under a fresh key. */
  lemma RetriedPushEqualsOneBundle(s0: Store, j: Job, tries: seq<seq<nat>>, last: seq<nat>, key: string, budget: nat, rules: Rules)
    requires j.Valid() && ChunkRecordsTrue(s0, j)
    requires Attempt(Attempts(s0, j, tries, rules), j, 0, last, rules).1
    requires RecordName(j.repo, key) !in s0.records
    requires Push(s0, PushRequest(j.repo, key, j.objects), budget, rules).1.Ok?
    ensures Attempt(Attempts(s0, j, tries, rules), j, 0, last, rules).0.files
         == Push(s0, PushRequest(j.repo, key, j.objects), budget, rules).0.files
  {
    RetriedPushCompletes(s0, j, tries, last, rules);
    WriteObjectsCounts(s0.files, j.repo, j.objects, budget, rules.p);
  }

  /* ----- what a completed push reports ----- */

  /** The report stored for this chunk. */
  predicate ReportOfChunk(r: PushReport, chunk: seq<CanonicalObject>) {
    r.accepted + r.duplicate == |chunk| && r.objectIds == FirstOccurrences(Ids(chunk))
  }

  /** Records under the job's chunk keys come from its chunks. */
  ghost predicate RecordsMine(s: Store, j: Job)
    requires j.Valid()
  {
    forall c :: 0 <= c < j.Chunks() && RecordName(j.repo, j.ChunkKey(c)) in s.records
      ==> ReportOfChunk(s.records[RecordName(j.repo, j.ChunkKey(c))], j.Chunk(c))
  }

  lemma PushReports(s: Store, request: PushRequest, budget: nat, rules: Rules)
    requires RecordOf(request) in s.records ==> ReportOfChunk(s.records[RecordOf(request)], request.objects)
    ensures var (t, r) := Push(s, request, budget, rules);
            && (r.Ok? ==> ReportOfChunk(r.value, request.objects))
            && (RecordOf(request) in t.records ==> ReportOfChunk(t.records[RecordOf(request)], request.objects))
            && forall n :: n != RecordOf(request) ==> (n in t.records <==> n in s.records) && (n in s.records ==> t.records[n] == s.records[n])
  {
    hide FirstFault, FirstClash, FirstOccurrences, WriteObjects;
    WriteObjectsCounts(s.files, request.repo, request.objects, budget, rules.p);
  }

  lemma ChunkReports(s: Store, j: Job, c: nat, budget: nat, rules: Rules)
    requires j.Valid() && c < j.Chunks() && RecordsMine(s, j)
    ensures var (t, r) := Push(s, j.Request(c), budget, rules);
            RecordsMine(t, j) && (r.Ok? ==> ReportOfChunk(r.value, j.Chunk(c)))
  {
    hide Push, ReportOfChunk;
    PushReports(s, j.Request(c), budget, rules);
    var t := Push(s, j.Request(c), budget, rules).0;
    forall d | 0 <= d < j.Chunks() && RecordName(j.repo, j.ChunkKey(d)) in t.records
      ensures ReportOfChunk(t.records[RecordName(j.repo, j.ChunkKey(d))], j.Chunk(d))
    {
      if d != c && j.ChunkKey(c) == j.ChunkKey(d) { ChunkKeysDiffer(j, c, d); }
    }
  }

  lemma {:induction false} AttemptKeepsRecords(s: Store, j: Job, c: nat, budgets: seq<nat>, rules: Rules)
    requires j.Valid() && RecordsMine(s, j)
    ensures RecordsMine(Attempt(s, j, c, budgets, rules).0, j)
    decreases |budgets|
  {
    hide Push, RecordsMine;
    if c < j.Chunks() && budgets != [] {
      ChunkReports(s, j, c, budgets[0], rules);
      AttemptKeepsRecords(Push(s, j.Request(c), budgets[0], rules).0, j, c + 1, budgets[1..], rules);
    }
  }

  lemma {:induction false} AttemptsKeepRecords(s: Store, j: Job, tries: seq<seq<nat>>, rules: Rules)
    requires j.Valid() && RecordsMine(s, j)
    ensures RecordsMine(Attempts(s, j, tries, rules), j)
  {
    hide RecordsMine, Attempt;
    if tries != [] {
      AttemptsKeepRecords(s, j, tries[..|tries| - 1], rules);
      AttemptKeepsRecords(Attempts(s, j, tries[..|tries| - 1], rules), j, 0, tries[|tries| - 1], rules);
    }
  }

  lemma IdsOfRest(j: Job, c: nat, id: string)
    requires j.Valid() && c < j.Chunks()
    ensures j.Start(c) < j.Start(c + 1) && |j.Chunk(c)| == j.Start(c + 1) - j.Start(c)
    ensures id in Ids(j.objects[j.Start(c)..]) <==> id in Ids(j.Chunk(c)) || id in Ids(j.objects[j.Start(c + 1)..])
  {
    StartsAscend(j, c);
    var rest, more := j.objects[j.Start(c)..], j.objects[j.Start(c + 1)..];
    assert rest == j.Chunk(c) + more;
    assert Ids(rest) == Ids(j.Chunk(c)) + Ids(more);
  }

  /** From chunk c on, the reports of a completed attempt account for the rest of the list. */
  lemma {:induction false} RestIsTallied(s: Store, j: Job, c: nat, budgets: seq<nat>, id: string, rules: Rules)
    requires j.Valid() && c <= j.Chunks() && RecordsMine(s, j) && Attempt(s, j, c, budgets, rules).1
    ensures var tally := TallyOf(Reports(s, j, c, budgets, rules));
            && tally.accepted + tally.duplicate == |j.objects| - j.Start(c)
            && (id in tally.ids <==> id in Ids(j.objects[j.Start(c)..]))
    decreases |budgets|
  {
    hide Push, RecordsMine;
    if c == j.Chunks() {
      if c > 0 { StartsAscend(j, c - 1); }
      assert j.objects[j.Start(c)..] == [];
    } else {
      var (t, r) := Push(s, j.Request(c), budgets[0], rules);
      ChunkReports(s, j, c, budgets[0], rules);
      TallyStep(s, j, c, budgets, rules);
      RestIsTallied(t, j, c + 1, budgets[1..], id, rules);
      IdsOfRest(j, c, id);
    }
  }

  /**
   However often it was interrupted before, a push that completes reports counts that add up
   to the length of the list and names exactly its ids.
   */
  lemma CompletedPushReport(s0: Store, j: Job, tries: seq<seq<nat>>, last: seq<nat>, id: string, rules: Rules)
    requires j.Valid() && RecordsMine(s0, j)
    requires Attempt(Attempts(s0, j, tries, rules), j, 0, last, rules).1
    ensures var tally := TallyOf(Reports(Attempts(s0, j, tries, rules), j, 0, last, rules));
            && tally.accepted + tally.duplicate == |j.objects|
            && (id in tally.ids <==> id in Ids(j.objects))
  {
    hide RecordsMine, Attempt, Reports;
    AttemptsKeepRecords(s0, j, tries, rules);
    RestIsTallied(Attempts(s0, j, tries, rules), j, 0, last, id, rules);
    assert j.objects[0..] == j.objects;
  }

  /** One push under a new key: what it counts and what it records. */
  lemma FreshPush(s: Store, request: PushRequest, budget: nat, rules: Rules)
    requires RecordOf(request) !in s.records && Push(s, request, budget, rules).1.Ok?
    ensures var (t, r) := Push(s, request, budget, rules);
            && t.records == s.records[RecordOf(request) := r.value]
            && r.value.accepted == |t.files| - |s.files|
            && r.value.accepted + r.value.duplicate == |request.objects|
            && r.value.objectIds == FirstOccurrences(Ids(request.objects))
  {
    hide FirstFault, FirstClash, WriteObjects, BundleHash;
    WriteObjectsCounts(s.files, request.repo, request.objects, budget, rules.p);
  }

  lemma EverythingSent(j: Job, c: nat)
    requires j.Valid() && c >= j.Chunks()
    ensures j.Start(c) == |j.objects|
  {
    PieceExists(|j.objects|, j.size, c);
    StartIs(j, c);
  }

  /** The chunks from c on have not been pushed. */
  ghost predicate Unsent(s: Store, j: Job, c: nat)
    requires j.Valid()
  {
    forall d :: c <= d < j.Chunks() ==> RecordName(j.repo, j.ChunkKey(d)) !in s.records
  }

  lemma ChunkDistinct(j: Job, c: nat)
    requires j.Valid() && c < j.Chunks() && DistinctIds(j.objects)
    ensures FirstOccurrences(Ids(j.Chunk(c))) == Ids(j.Chunk(c))
  {
    StartsAscend(j, c);
    FirstOccurrencesAll(Ids(j.Chunk(c)));
  }

  lemma IdsFrom(objects: seq<CanonicalObject>, a: nat, b: nat)
    requires a <= b <= |objects|
    ensures Ids(objects[a..]) == Ids(objects[a..b]) + Ids(objects[b..])
  {}

  lemma {:induction false} FreshRest(s: Store, j: Job, c: nat, budgets: seq<nat>, rules: Rules)
    requires j.Valid() && Unsent(s, j, c) && Attempt(s, j, c, budgets, rules).1
    ensures var tally := TallyOf(Reports(s, j, c, budgets, rules));
            && tally.accepted == |Attempt(s, j, c, budgets, rules).0.files| - |s.files|
            && tally.accepted + tally.duplicate == |j.objects| - j.Start(c)
            && (DistinctIds(j.objects) ==> tally.ids == Ids(j.objects[j.Start(c)..]))
    decreases |budgets|
  {
    hide Push, Attempt, Reports, TallyOf, FirstOccurrences, DistinctIds, Job.Chunks, Job.ChunkKey, Job.Start;
    AttemptStops(s, j, c, budgets, rules);
    if c >= j.Chunks() {
      EverythingSent(j, c);
      assert j.objects[j.Start(c)..] == [];
    } else {
      var request := j.Request(c);
      var (t, r) := Push(s, request, budgets[0], rules);
      FreshPush(s, request, budgets[0], rules);
      TallyStep(s, j, c, budgets, rules);
      forall d | c + 1 <= d < j.Chunks() ensures RecordName(j.repo, j.ChunkKey(d)) !in t.records {
        if j.ChunkKey(d) == j.ChunkKey(c) { ChunkKeysDiffer(j, c, d); }
      }
      FreshRest(t, j, c + 1, budgets[1..], rules);
      StartsAscend(j, c);
      IdsFrom(j.objects, j.Start(c), j.Start(c + 1));
      if DistinctIds(j.objects) { ChunkDistinct(j, c); }
    }
  }

  /**
   A push none of whose chunks was pushed before reports, when it completes, how many files the
   relay gained and how many of its objects were there already and, if no id repeats, the ids in order.
   */
  lemma FreshPushReport(s: Store, j: Job, budgets: seq<nat>, rules: Rules)
    requires j.Valid() && Attempt(s, j, 0, budgets, rules).1
    requires forall c :: 0 <= c < j.Chunks() ==> RecordName(j.repo, j.ChunkKey(c)) !in s.records
    ensures var t, tally := Attempt(s, j, 0, budgets, rules).0, TallyOf(Reports(s, j, 0, budgets, rules));
            && tally.accepted == |t.files| - |s.files|
            && tally.accepted + tally.duplicate == |j.objects|
            && (DistinctIds(j.objects) ==> tally.ids == Ids(j.objects))
  {
    hide Attempt, Reports, TallyOf;
    FreshRest(s, j, 0, budgets, rules);
    assert j.objects[0..] == j.objects;
  }

  /* ----- chunk keys carry the count of chunks, not their size ----- */

  /** Two chunk sizes that give the same number of chunks give the same keys to different chunks. */
  lemma SizesShareKeys(j: Job, size: nat, c: nat)
    requires j.Valid() && size > 0 && j.(size := size).Chunks() == j.Chunks()
    ensures j.(size := size).ChunkKey(c) == j.ChunkKey(c)
  {}

  /* ----- the two stores' reports ----- */

  predicate DistinctIds(objects: seq<CanonicalObject>) {
    forall i, k :: 0 <= i < k < |objects| ==> objects[i].objectId != objects[k].objectId
  }

  lemma {:induction false} FirstOccurrencesAll(ids: seq<string>)
    ensures FirstOccurrences(ids) == ids <==> forall i, k :: 0 <= i < k < |ids| ==> ids[i] != ids[k]
    ensures |FirstOccurrences(ids)| <= |ids|
  {
    if ids != [] {
      var front, last := ids[..|ids| - 1], ids[|ids| - 1];
      FirstOccurrencesAll(front);
      assert ids == front + [last];
      if last in FirstOccurrences(front) {
        assert last in front;
        var i :| 0 <= i < |front| && front[i] == last;
        assert ids[i] == ids[|ids| - 1];
        assert |FirstOccurrences(ids)| < |ids|;
      } else if FirstOccurrences(front) == front {
        forall i, k | 0 <= i < k < |ids| ensures ids[i] != ids[k] {
          assert ids[i] == front[i];
          if k == |front| { assert front[i] in front; } else { assert ids[k] == front[k]; }
        }
      } else {
        assert FirstOccurrences(ids) != ids by { assert FirstOccurrences(ids)[..|FirstOccurrences(front)|] == FirstOccurrences(front); }
        var i, k :| 0 <= i < k < |front| && front[i] == front[k];
        assert ids[i] == ids[k];
      }
    }
  }

  /**
   For one request, whatever each has counted, the file store reports its ids once and the
   bucket as sent: the id lists, and with them the bundle hashes, agree exactly when no id is
   repeated.
   */
  lemma ReportsListAlike(request: PushRequest, q: Progress, u: GcsRelay.Pusher, p: Primitives)
    requires p.Sound() && u.request == request
    ensures FileRelay.Report(request, q, p).objectIds == u.Report(p).objectIds <==> DistinctIds(request.objects)
    ensures FileRelay.Report(request, q, p).bundleHash == u.Report(p).bundleHash <==> DistinctIds(request.objects)
  {
    hide FirstOccurrences, BundleHash;
    var ids := Ids(request.objects);
    FirstOccurrencesAll(ids);
    BundleHashInjective(FirstOccurrences(ids), ids, p);
  }
}
