/**
 Retrying a chunked push: when another chunk size may be used, and why pushes under derived keys
 never mislead one another.
 */
module RelayRetries {
  import opened Text
  import opened Json
  import opened Printing
  import opened Identity
  import opened Relay
  import opened FileRelay
  import opened RelayPush

  /* ----- keys of different jobs ----- */

  /** A text up to a stop character reads in one way. */
  lemma UpTo(stop: char, d: string, x: string, e: string, y: string)
    requires (forall i :: 0 <= i < |d| ==> d[i] != stop) && (forall i :: 0 <= i < |e| ==> e[i] != stop)
    requires (x == "" || x[0] == stop) && (y == "" || y[0] == stop) && d + x == e + y
    ensures d == e && x == y
  {
    var a, b := d + x, e + y;
    assert |a| == |d| + |x| && |b| == |e| + |y|;
    assert x != "" ==> a[|d|] == stop;
    assert y != "" ==> b[|e|] == stop;
    assert forall i :: 0 <= i < |d| ==> a[i] == d[i];
    assert forall i :: 0 <= i < |e| ==> b[i] == e[i];
    assert |d| == |e|;
    assert d == a[..|d|] && e == b[..|e|];
    assert x == a[|d|..] && y == b[|e|..];
  }

  /** What follows the key in a chunk key. */
  function Suffix(count: nat, c: nat): string {
    if count == 1 then "" else ":chunk:" + (Padded4(c + 1) + ("-of-" + Padded4(count)))
  }

  lemma ChunkKeyIs(j: Job, c: nat)
    requires j.Valid()
    ensures j.ChunkKey(c) == j.key + Suffix(j.KeyCount(), c)
    ensures Suffix(j.KeyCount(), c) == "" || Suffix(j.KeyCount(), c)[0] == ':'
    ensures j.KeyCount() > 0
  {
    hide Padded4;
    var k, x := j.key, Padded4(c + 1) + ("-of-" + Padded4(j.KeyCount()));
    assert k + ":chunk:" + Padded4(c + 1) + ("-of-" + Padded4(j.KeyCount())) == k + (":chunk:" + x);
  }

  /** A suffix fixes the count of chunks and, when there is more than one, the chunk. */
  lemma SuffixDecides(m: nat, c: nat, n: nat, d: nat)
    requires m > 0 && n > 0 && Suffix(m, c) == Suffix(n, d)
    ensures m == n && (m > 1 ==> c == d)
  {
    hide Padded4;
    if m != 1 && n != 1 {
      var x, y := Padded4(c + 1) + ("-of-" + Padded4(m)), Padded4(d + 1) + ("-of-" + Padded4(n));
      assert x == (":chunk:" + x)[7..] && y == (":chunk:" + y)[7..];
      UpTo('-', Padded4(c + 1), "-of-" + Padded4(m), Padded4(d + 1), "-of-" + Padded4(n));
      assert Padded4(m) == ("-of-" + Padded4(m))[4..] && Padded4(n) == ("-of-" + Padded4(n))[4..];
      Padded4Denotes(c + 1);
      Padded4Denotes(d + 1);
      Padded4Denotes(m);
      Padded4Denotes(n);
    }
  }

  lemma StripKey(k: string, x: string, y: string)
    requires k + x == k + y
    ensures x == y
  {
    assert x == (k + x)[|k|..] && y == (k + y)[|k|..];
  }

  /** Under one key, chunk keys agree only with the same count of chunks. */
  lemma CountsKeepKeysApart(j: Job, size: nat, c: nat, d: nat)
    requires j.Valid() && size > 0 && j.ChunkKey(c) == j.(size := size).ChunkKey(d)
    ensures j.KeyCount() == j.(size := size).KeyCount()
  {
    hide Suffix, Job.ChunkKey, Job.KeyCount;
    var k := j.(size := size);
    ChunkKeyIs(j, c);
    ChunkKeyIs(k, d);
    StripKey(j.key, Suffix(j.KeyCount(), c), Suffix(k.KeyCount(), d));
    SuffixDecides(j.KeyCount(), c, k.KeyCount(), d);
  }

  /* ----- what one size leaves behind ----- */

  lemma {:induction false} SmallerStartsEarlier(j: Job, size: nat, c: nat)
    requires j.Valid() && 0 < size <= j.size
    ensures j.(size := size).Start(c) <= j.Start(c)
  {
    if c > 0 { SmallerStartsEarlier(j, size, c - 1); }
  }

  /** A record under the key of a chunk means that the whole list up to its end is stored. */
  ghost predicate PrefixRecords(s: Store, j: Job)
    requires j.Valid()
  {
    forall c :: 0 <= c < j.Chunks() && RecordName(j.repo, j.ChunkKey(c)) in s.records
      ==> Names(j.repo, j.objects[..j.Start(c + 1)]) <= s.files.Keys
  }

  lemma NamesOfBoth(repo: string, objects: seq<CanonicalObject>, lo: nat, hi: nat)
    requires lo <= hi <= |objects|
    ensures Names(repo, objects[..hi]) == Names(repo, objects[..lo]) + Names(repo, objects[lo..hi])
  {
    NamesOfPart(repo, objects, 0, lo, hi);
    assert objects[0..lo] == objects[..lo];
    NamesOfPart(repo, objects, lo, hi, hi);
    forall x | x in Names(repo, objects[..hi]) ensures x in Names(repo, objects[..lo]) + Names(repo, objects[lo..hi]) {
      var i :| 0 <= i < hi && x == FileName(repo, objects[..hi][i].objectId);
      if i < lo { assert objects[..lo][i] == objects[i]; } else { assert objects[lo..hi][i - lo] == objects[i]; }
    }
  }

  /** What one chunk, sent after everything before it, does to files and records. */
  lemma ChunkInOrder(s: Store, j: Job, c: nat, budget: nat, rules: Rules)
    requires j.Valid() && c < j.Chunks() && PrefixRecords(s, j) && Names(j.repo, j.objects[..j.Start(c)]) <= s.files.Keys
    ensures var (t, r) := Push(s, j.Request(c), budget, rules);
            && s.files.Keys <= t.files.Keys
            && (forall n :: n in t.records ==> n in s.records || n == RecordName(j.repo, j.ChunkKey(c)))
            && (r.Ok? || RecordName(j.repo, j.ChunkKey(c)) in t.records ==> Names(j.repo, j.objects[..j.Start(c + 1)]) <= t.files.Keys)
  {
    hide Push, Job.ChunkKey, Names;
    var request := j.Request(c);
    var k := PushOutcome(s, request, budget, rules);
    PutAllGrows(s.files, j.repo, request.objects[..k], rules.p);
    StartsAscend(j, c);
    NamesOfBoth(j.repo, j.objects, j.Start(c), j.Start(c + 1));
    assert request.objects == j.objects[j.Start(c)..j.Start(c + 1)];
    assert k == |request.objects| ==> request.objects[..k] == request.objects;
  }

  lemma {:induction false} AttemptInOrder(s: Store, j: Job, c: nat, budgets: seq<nat>, rules: Rules)
    requires j.Valid() && PrefixRecords(s, j) && Names(j.repo, j.objects[..j.Start(c)]) <= s.files.Keys
    ensures var t := Attempt(s, j, c, budgets, rules).0;
            PrefixRecords(t, j) && s.files.Keys <= t.files.Keys
    decreases |budgets|
  {
    hide Push, Names, Job.ChunkKey, Job.Chunks, Job.Start;
    if c < j.Chunks() && budgets != [] {
      var (t, r) := Push(s, j.Request(c), budgets[0], rules);
      ChunkInOrder(s, j, c, budgets[0], rules);
      forall d | 0 <= d < j.Chunks() && RecordName(j.repo, j.ChunkKey(d)) in t.records
        ensures Names(j.repo, j.objects[..j.Start(d + 1)]) <= t.files.Keys
      {
        if RecordName(j.repo, j.ChunkKey(d)) !in s.records { ChunkKeysDiffer(j, c, d); }
      }
      if r.Ok? { AttemptInOrder(t, j, c + 1, budgets[1..], rules); }
    }
  }

  /** No record of this job yet. */
  ghost predicate NoRecords(s: Store, j: Job)
    requires j.Valid()
  {
    forall c :: 0 <= c < j.Chunks() ==> RecordName(j.repo, j.ChunkKey(c)) !in s.records
  }

  /** An attempt adds records of its own chunks only. */
  lemma {:induction false} AttemptRecords(s: Store, j: Job, c: nat, budgets: seq<nat>, n: RecordName, rules: Rules)
    requires j.Valid() && n in Attempt(s, j, c, budgets, rules).0.records && n !in s.records
    ensures exists d :: 0 <= d < j.Chunks() && n == RecordName(j.repo, j.ChunkKey(d))
    decreases |budgets|
  {
    hide Push, Job.ChunkKey, Job.Chunks, Job.Start;
    if c < j.Chunks() && budgets != [] {
      var (t, r) := Push(s, j.Request(c), budgets[0], rules);
      var _ := PushOutcome(s, j.Request(c), budgets[0], rules);
      if n !in t.records { AttemptRecords(t, j, c + 1, budgets[1..], n, rules); }
    }
  }

  /** After attempts at one size from a store without its records. */
  lemma {:induction false} AttemptsInOrder(s: Store, j: Job, tries: seq<seq<nat>>, rules: Rules)
    requires j.Valid() && NoRecords(s, j)
    ensures var t := Attempts(s, j, tries, rules);
            && PrefixRecords(t, j)
            && forall n :: n in t.records && n !in s.records ==> exists d :: 0 <= d < j.Chunks() && n == RecordName(j.repo, j.ChunkKey(d))
  {
    hide Names, Job.ChunkKey, Job.Chunks, Job.Start, Attempt;
    if tries != [] {
      var front, last := tries[..|tries| - 1], tries[|tries| - 1];
      AttemptsInOrder(s, j, front, rules);
      var t := Attempts(s, j, front, rules);
      StartsAtNothing(j, t);
      AttemptInOrder(t, j, 0, last, rules);
      forall n | n in Attempt(t, j, 0, last, rules).0.records && n !in s.records
        ensures exists d :: 0 <= d < j.Chunks() && n == RecordName(j.repo, j.ChunkKey(d))
      {
        if n !in t.records { AttemptRecords(t, j, 0, last, n, rules); }
      }
    }
  }

  lemma StartsAtNothing(j: Job, s: Store)
    ensures Names(j.repo, j.objects[..j.Start(0)]) <= s.files.Keys
  {}

  /* ----- changing the size ----- */

  /** Going on with another size cannot skip an object. A caller can check this beforehand. */
  predicate SafeChange(n: nat, size: nat, size': nat)
    requires size > 0 && size' > 0
  {
    !(size < size' && ChunksOf(n, size) == ChunksOf(n, size') && ChunksOf(n, size) >= 2)
  }

  /** What the first size left behind does not mislead the second. */
  lemma RecordsTrueAtOtherSize(s: Store, j: Job, size: nat)
    requires j.Valid() && size > 0 && SafeChange(|j.objects|, j.size, size) && PrefixRecords(s, j)
    requires var k := j.(size := size);
             forall d :: 0 <= d < k.Chunks() && RecordName(j.repo, k.ChunkKey(d)) in s.records
               ==> exists c :: 0 <= c < j.Chunks() && k.ChunkKey(d) == j.ChunkKey(c)
    ensures ChunkRecordsTrue(s, j.(size := size))
  {
    hide Names, Job.ChunkKey, Job.Chunk;
    var k := j.(size := size);
    forall d | 0 <= d < k.Chunks() && RecordName(k.repo, k.ChunkKey(d)) in s.records
      ensures Names(k.repo, k.Chunk(d)) <= s.files.Keys
    {
      var c :| 0 <= c < j.Chunks() && k.ChunkKey(d) == j.ChunkKey(c);
      CountsKeepKeysApart(j, size, c, d);
      SizesShareKeys(j, size, d);
      assert PrefixRecords(s, j) && RecordName(j.repo, j.ChunkKey(d)) in s.records;
      EndsNoLater(j, size, d);
      ChunkWithin(k, d, j.Start(d + 1));
    }
  }

  lemma ChunkWithin(k: Job, d: nat, end: nat)
    requires k.Valid() && d < k.Chunks() && k.Start(d + 1) <= end <= |k.objects|
    ensures Names(k.repo, k.Chunk(d)) <= Names(k.repo, k.objects[..end])
  {
    StartsAscend(k, d);
    NamesOfPart(k.repo, k.objects, k.Start(d), k.Start(d + 1), end);
  }

  lemma EndsNoLater(j: Job, size: nat, d: nat)
    requires j.Valid() && size > 0 && SafeChange(|j.objects|, j.size, size)
    requires d < j.Chunks() && j.Chunks() == j.(size := size).Chunks()
    ensures j.(size := size).Start(d + 1) <= j.Start(d + 1)
  {
    if size <= j.size {
      SmallerStartsEarlier(j, size, d + 1);
    } else {
      StartsAscend(j, d);
    }
  }

  /** Where the change is safe, a completed attempt at the new size leaves exactly the whole list. */
  lemma SafeChangeCompletes(s0: Store, j: Job, size: nat, tries: seq<seq<nat>>, tries': seq<seq<nat>>, last: seq<nat>, rules: Rules)
    requires j.Valid() && size > 0 && SafeChange(|j.objects|, j.size, size)
    requires NoRecords(s0, j) && NoRecords(s0, j.(size := size))
    requires Attempt(Attempts(Attempts(s0, j, tries, rules), j.(size := size), tries', rules), j.(size := size), 0, last, rules).1
    ensures var t := Attempt(Attempts(Attempts(s0, j, tries, rules), j.(size := size), tries', rules), j.(size := size), 0, last, rules).0;
            t.files == PutAll(s0.files, j.repo, j.objects, rules.p) && Names(j.repo, j.objects) <= t.files.Keys
  {
    hide Names, Attempts, Attempt, Job.ChunkKey, Job.Chunks, PutAll, SafeChange;
    var k, s1 := j.(size := size), Attempts(s0, j, tries, rules);
    AttemptsInOrder(s0, j, tries, rules);
    RecordsTrueAtOtherSize(s1, j, size);
    var m := AttemptsProgress(s0, j, tries, rules);
    RetriedPushCompletes(s1, k, tries', last, rules);
    var all := j.objects;
    assert all[0..|all|] == all && all[..Max(|all|, m)] == all;
    PutStretch(s0.files, j.repo, all, 0, |all|, m, rules.p);
  }

  /* ----- a change that is not safe ----- */

  /** A new list: valid objects with different ids, none stored, and no record of it at either size. */
  ghost predicate NewList(s: Store, j: Job, size: nat, rules: Rules)
    requires j.Valid() && size > 0
  {
    && ValidBundle(PushRequest(j.repo, j.key, j.objects), rules)
    && DistinctIds(j.objects)
    && (forall i :: 0 <= i < |j.objects| ==> FileName(j.repo, j.objects[i].objectId) !in s.files)
    && NoRecords(s, j) && NoRecords(s, j.(size := size))
  }

  /** A push of new valid objects under a new key stores them all. */
  lemma NewBundle(s: Store, request: PushRequest, budget: nat, rules: Rules)
    requires ValidBundle(request, rules) && RecordOf(request) !in s.records && budget > |request.objects|
    requires forall i :: 0 <= i < |request.objects| ==> FileName(request.repo, request.objects[i].objectId) !in s.files
    ensures var (t, r) := Push(s, request, budget, rules);
            r.Ok? && t.files.Keys == s.files.Keys + Names(request.repo, request.objects) && t.records.Keys == s.records.Keys + {RecordOf(request)}
  {
    hide Push, PutAll, FirstOccurrences, ObjectBytes, ValidObject, BundleHash, Names, Ids;
    assert forall i :: 0 <= i < |request.objects| ==> !Clashes(s.files, request.repo, request.objects[i], rules.p);
    hide Clashes;
    PushAllOrNothing(s, request, budget, rules);
    PutAllGrows(s.files, request.repo, request.objects, rules.p);
    var (t, r) := Push(s, request, budget, rules);
    assert t.records == s.records[RecordOf(request) := r.value];
    assert t.records.Keys == s.records.Keys + {RecordOf(request)};
  }

  lemma Replays(s: Store, request: PushRequest, budget: nat, rules: Rules)
    requires ValidBundle(request, rules) && RecordOf(request) in s.records
    ensures Push(s, request, budget, rules) == (s, Ok(s.records[RecordOf(request)]))
  {
    NoFault(request.repo, request.objects, rules);
  }

  lemma NotAmong(repo: string, objects: seq<CanonicalObject>, lo: nat, hi: nat, i: nat)
    requires DistinctIds(objects) && lo <= hi <= |objects| && i < |objects| && !(lo <= i < hi)
    ensures FileName(repo, objects[i].objectId) !in Names(repo, objects[lo..hi])
  {
    forall k | 0 <= k < hi - lo ensures objects[lo..hi][k].objectId != objects[i].objectId {
      assert objects[lo..hi][k] == objects[lo + k];
    }
  }

  lemma ChunkIsValid(j: Job, c: nat, rules: Rules)
    requires j.Valid() && c < j.Chunks() && ValidBundle(PushRequest(j.repo, j.key, j.objects), rules)
    ensures ValidBundle(j.Request(c), rules)
  {
    StartsAscend(j, c);
    forall i | 0 <= i < |j.Chunk(c)| ensures ValidObject(j.repo, j.Chunk(c)[i], rules) {
      assert j.Chunk(c)[i] == j.objects[j.Start(c) + i];
    }
  }

  function Ample(n: nat, m: nat): seq<nat> {
    seq(m, i => n + 1)
  }

  /** The rest of the list is unknown to the store and no record of it is there. */
  ghost predicate RestIsNew(s: Store, j: Job, c: nat, rules: Rules)
    requires j.Valid()
  {
    && ValidBundle(PushRequest(j.repo, j.key, j.objects), rules) && DistinctIds(j.objects)
    && (forall i :: j.Start(c) <= i < |j.objects| ==> FileName(j.repo, j.objects[i].objectId) !in s.files)
    && (forall d :: c <= d < j.Chunks() ==> RecordName(j.repo, j.ChunkKey(d)) !in s.records)
  }

  lemma ChunkSent(s: Store, j: Job, c: nat, rules: Rules)
    requires j.Valid() && c < j.Chunks() && RestIsNew(s, j, c, rules)
    ensures var (t, r) := Push(s, j.Request(c), |j.objects| + 1, rules);
            && r.Ok? && RestIsNew(t, j, c + 1, rules)
            && t.files.Keys == s.files.Keys + Names(j.repo, j.objects[j.Start(c)..j.Start(c + 1)])
            && t.records.Keys == s.records.Keys + {RecordName(j.repo, j.ChunkKey(c))}
  {
    hide Push, Names, Job.ChunkKey, ValidBundle, Job.Chunks;
    StartsAscend(j, c);
    ChunkIsValid(j, c, rules);
    var request := j.Request(c);
    forall i | 0 <= i < |request.objects| ensures FileName(j.repo, request.objects[i].objectId) !in s.files {
      assert request.objects[i] == j.objects[j.Start(c) + i];
    }
    NewBundle(s, request, |j.objects| + 1, rules);
    var t := Push(s, request, |j.objects| + 1, rules).0;
    forall i | j.Start(c + 1) <= i < |j.objects| ensures FileName(j.repo, j.objects[i].objectId) !in t.files {
      NotAmong(j.repo, j.objects, j.Start(c), j.Start(c + 1), i);
    }
    forall d | c + 1 <= d < j.Chunks() ensures RecordName(j.repo, j.ChunkKey(d)) !in t.records {
      if j.ChunkKey(d) == j.ChunkKey(c) { ChunkKeysDiffer(j, c, d); }
    }
  }

  /** With room enough, an attempt over a new rest of the list completes and stores exactly that rest. */
  lemma {:induction false} RestIsSent(s: Store, j: Job, c: nat, rules: Rules)
    requires j.Valid() && c <= j.Chunks() && RestIsNew(s, j, c, rules)
    ensures var (t, done) := Attempt(s, j, c, Ample(|j.objects|, j.Chunks() - c), rules);
            done && t.files.Keys == s.files.Keys + Names(j.repo, j.objects[j.Start(c)..])
    decreases j.Chunks() - c
  {
    hide Push, Names, Job.ChunkKey, Job.Chunks, Job.Chunk, RestIsNew, Attempt, Reports, TallyOf;
    var budgets := Ample(|j.objects|, j.Chunks() - c);
    if c == j.Chunks() {
      AttemptStops(s, j, c, budgets, rules);
      AtTheEnd(j);
      NoNames(j.repo, j.objects[j.Start(c)..]);
    } else {
      ChunkSent(s, j, c, rules);
      TallyStep(s, j, c, budgets, rules);
      assert budgets[1..] == Ample(|j.objects|, j.Chunks() - (c + 1));
      RestIsSent(Push(s, j.Request(c), |j.objects| + 1, rules).0, j, c + 1, rules);
      StartsAscend(j, c);
      NamesJoin(j.repo, j.objects, j.Start(c), j.Start(c + 1));
    }
  }

  lemma AtTheEnd(j: Job)
    requires j.Valid()
    ensures j.Start(j.Chunks()) == |j.objects|
  {
    if j.Chunks() > 0 { StartsAscend(j, j.Chunks() - 1); }
  }

  lemma NoNames(repo: string, objects: seq<CanonicalObject>)
    ensures objects == [] ==> Names(repo, objects) == {}
  {}

  lemma NamesJoin(repo: string, objects: seq<CanonicalObject>, lo: nat, mid: nat)
    requires lo <= mid <= |objects|
    ensures Names(repo, objects[lo..]) == Names(repo, objects[lo..mid]) + Names(repo, objects[mid..])
  {
    var rest := objects[lo..];
    NamesOfBoth(repo, rest, mid - lo, |rest|);
    assert rest[..|rest|] == rest && rest[..mid - lo] == objects[lo..mid] && rest[mid - lo..|rest|] == objects[mid..];
  }

  /**
   Where the change is not safe: send the first chunk, stop, go on at the larger size. The first
   key is replayed, the others carry what follows the first larger chunk, and the push completes
   without ever sending the object just after the first smaller one.
   */
  lemma UnsafeChangeSkips(s0: Store, j: Job, size: nat, rules: Rules)
    requires j.Valid() && size > 0 && !SafeChange(|j.objects|, j.size, size) && NewList(s0, j, size, rules)
    ensures var k, n := j.(size := size), |j.objects|;
            && j.size < n
            && var t := Attempts(s0, j, [Ample(n, 1)], rules);
            var (u, done) := Attempt(t, k, 0, Ample(n, k.Chunks()), rules);
            done && FileName(j.repo, j.objects[j.size].objectId) !in u.files
  {
    hide Push, Names, Job.ChunkKey, Job.Chunk, Attempt, Reports, TallyOf, RestIsNew, ValidBundle;
    var k, n, first := j.(size := size), |j.objects|, Ample(|j.objects|, 1);
    OneAttempt(s0, j, first, rules);
    FirstIsNew(s0, j, size, rules);
    ChunkSent(s0, j, 0, rules);
    TallyStep(s0, j, 0, first, rules);
    assert first[1..] == [];
    var t := Push(s0, j.Request(0), n + 1, rules).0;
    AttemptStops(t, j, 1, [], rules);
    FirstStarts(j, size);
    SizesShareKeys(j, size, 0);
    ChunkIsValid(k, 0, rules);
    Replays(t, k.Request(0), n + 1, rules);
    var rest := Ample(n, k.Chunks());
    TallyStep(t, k, 0, rest, rules);
    assert rest[1..] == Ample(n, k.Chunks() - 1);
    RestIsNewAfterFirst(s0, t, j, size, rules);
    RestIsSent(t, k, 1, rules);
    NotAmong(j.repo, j.objects, 0, j.size, j.size);
    assert j.objects[size..n] == j.objects[size..];
    NotAmong(j.repo, j.objects, size, n, j.size);
  }

  lemma OneAttempt(s: Store, j: Job, budgets: seq<nat>, rules: Rules)
    requires j.Valid()
    ensures Attempts(s, j, [budgets], rules) == Attempt(s, j, 0, budgets, rules).0
  {
    hide Attempt;
    assert [budgets][..0] == [];
  }

  lemma FirstIsNew(s0: Store, j: Job, size: nat, rules: Rules)
    requires j.Valid() && size > 0 && NewList(s0, j, size, rules)
    ensures RestIsNew(s0, j, 0, rules)
  {
    hide ValidBundle;
  }

  lemma FirstStarts(j: Job, size: nat)
    requires j.Valid() && size > 0 && !SafeChange(|j.objects|, j.size, size)
    ensures var k := j.(size := size);
            && j.Start(0) == 0 && j.Start(1) == j.size < size && k.Start(1) == size < |j.objects|
            && j.Chunks() == k.Chunks() >= 2
  {
    PieceExists(|j.objects|, size, 1);
    StartIs(j, 1);
    StartIs(j.(size := size), 1);
  }

  lemma RestIsNewAfterFirst(s0: Store, t: Store, j: Job, size: nat, rules: Rules)
    requires j.Valid() && size > 0 && !SafeChange(|j.objects|, j.size, size) && NewList(s0, j, size, rules)
    requires t.files.Keys == s0.files.Keys + Names(j.repo, j.objects[0..j.size])
    requires t.records.Keys == s0.records.Keys + {RecordName(j.repo, j.ChunkKey(0))}
    requires j.size <= |j.objects|
    ensures RestIsNew(t, j.(size := size), 1, rules)
  {
    hide Names, Job.ChunkKey, ValidBundle, Job.Chunks;
    var k := j.(size := size);
    FirstStarts(j, size);
    forall i | k.Start(1) <= i < |j.objects| ensures FileName(j.repo, j.objects[i].objectId) !in t.files {
      NotAmong(j.repo, j.objects, 0, j.size, i);
    }
    forall d | 1 <= d < k.Chunks() ensures RecordName(j.repo, k.ChunkKey(d)) !in t.records {
      SizesShareKeys(j, size, d);
      if k.ChunkKey(d) == j.ChunkKey(0) { ChunkKeysDiffer(j, 0, d); }
    }
  }

  /** Whatever attempts at either size went before, one that completes leaves every object. */
  ghost predicate SurvivesChange(s0: Store, j: Job, size: nat, rules: Rules)
    requires j.Valid() && size > 0
  {
    forall tries, tries', last ::
      var k := j.(size := size);
      var s2 := Attempts(Attempts(s0, j, tries, rules), k, tries', rules);
      Attempt(s2, k, 0, last, rules).1 ==> Names(j.repo, j.objects) <= Attempt(s2, k, 0, last, rules).0.files.Keys
  }

  /**
   Exactly when a retry may use another chunk size: unless it is larger and gives the same number
   of chunks, two or more. Then every run of attempts at the first size, followed by any at the
   second, leaves every object once one completes; otherwise some run completes without.
   */
  lemma SizeChangeSafety(s0: Store, j: Job, size: nat, rules: Rules)
    requires j.Valid() && size > 0 && NewList(s0, j, size, rules)
    ensures SurvivesChange(s0, j, size, rules) <==> SafeChange(|j.objects|, j.size, size)
  {
    hide Names, Attempts, Attempt, SafeChange, NewList;
    var k := j.(size := size);
    if SafeChange(|j.objects|, j.size, size) {
      forall tries, tries', last | Attempt(Attempts(Attempts(s0, j, tries, rules), k, tries', rules), k, 0, last, rules).1
        ensures Names(j.repo, j.objects) <= Attempt(Attempts(Attempts(s0, j, tries, rules), k, tries', rules), k, 0, last, rules).0.files.Keys
      {
        NewListHasNoRecords(s0, j, size, rules);
        SafeChangeCompletes(s0, j, size, tries, tries', last, rules);
      }
    } else {
      UnsafeChangeSkips(s0, j, size, rules);
      var t := Attempts(s0, j, [Ample(|j.objects|, 1)], rules);
      NoAttempt(t, k, rules);
      var all := Ample(|j.objects|, k.Chunks());
      assert Attempt(Attempts(t, k, [], rules), k, 0, all, rules).1;
      NameOf(j, j.size);
    }
  }

  lemma NewListHasNoRecords(s0: Store, j: Job, size: nat, rules: Rules)
    requires j.Valid() && size > 0 && NewList(s0, j, size, rules)
    ensures NoRecords(s0, j) && NoRecords(s0, j.(size := size))
  {}

  lemma NoAttempt(s: Store, j: Job, rules: Rules)
    requires j.Valid()
    ensures Attempts(s, j, [], rules) == s
  {}

  lemma NameOf(j: Job, i: nat)
    requires i < |j.objects|
    ensures FileName(j.repo, j.objects[i].objectId) in Names(j.repo, j.objects)
  {}

  /* ----- pushes under derived keys ----- */

  /** One `relay push` with no key given, stopped by its budgets wherever. */
  datatype PushRun = PushRun(repo: string, objects: seq<CanonicalObject>, budgets: seq<nat>)

  function DerivedJob(repo: string, objects: seq<CanonicalObject>, size: nat, p: Primitives): (j: Job)
    ensures j.Valid()
  {
    JobOf(repo, None, objects, size, p)
  }

  /** The relay after these pushes, of any repositories and lists, all at one chunk size. */
  function RelayAfter(runs: seq<PushRun>, size: nat, rules: Rules): Store {
    if runs == [] then Store(map[], map[])
    else
      var last := runs[|runs| - 1];
      Attempt(RelayAfter(runs[..|runs| - 1], size, rules), DerivedJob(last.repo, last.objects, size, rules.p), 0, last.budgets, rules).0
  }

  /** Digests are spelled without a colon, as hex digits are. */
  ghost predicate PlainDigests(p: Primitives) {
    forall x, i :: 0 <= i < |p.sha(x)| ==> p.sha(x)[i] != ':'
  }

  /** Chunk keys of derived jobs agree only for one list of ids in one repository, and one chunk of it. */
  lemma DerivedChunkKeys(r1: string, a: seq<CanonicalObject>, c: nat, r2: string, b: seq<CanonicalObject>, d: nat, size: nat, p: Primitives)
    requires p.Sound() && PlainDigests(p)
    requires c < DerivedJob(r1, a, size, p).Chunks() && d < DerivedJob(r2, b, size, p).Chunks()
    requires DerivedJob(r1, a, size, p).ChunkKey(c) == DerivedJob(r2, b, size, p).ChunkKey(d)
    ensures r1 == r2 && Ids(a) == Ids(b) && c == d
  {
    hide Suffix, Job.ChunkKey, CanonicalTextOf;
    var j, k := DerivedJob(r1, a, size, p), DerivedJob(r2, b, size, p);
    ChunkKeyIs(j, c);
    ChunkKeyIs(k, d);
    var x, y := Suffix(j.KeyCount(), c), Suffix(k.KeyCount(), d);
    var u, v := p.sha(CanonicalTextOf(r1, a, p)), p.sha(CanonicalTextOf(r2, b, p));
    DerivedKeyIs(r1, a, p);
    DerivedKeyIs(r2, b, p);
    assert ("sha256:" + u) + x == "sha256:" + (u + x) && ("sha256:" + v) + y == "sha256:" + (v + y);
    StripKey("sha256:", u + x, v + y);
    UpTo(':', u, x, v, y);
    DerivedKeyInjective(r1, Ids(a), r2, Ids(b), p);
    SuffixDecides(j.KeyCount(), c, k.KeyCount(), d);
  }

  function CanonicalTextOf(repo: string, objects: seq<CanonicalObject>, p: Primitives): string {
    CanonicalText(Obj(KeyMembers(repo, Ids(objects))), p.spell)
  }

  lemma DerivedKeyIs(repo: string, objects: seq<CanonicalObject>, p: Primitives)
    ensures DerivedKey(repo, Ids(objects), p) == "sha256:" + p.sha(CanonicalTextOf(repo, objects, p))
  {}

  /** Chunks of lists with the same ids have the same ids. */
  lemma SameIdsSameChunk(j: Job, k: Job, c: nat)
    requires j.Valid() && k.Valid() && j.repo == k.repo && j.size == k.size && Ids(j.objects) == Ids(k.objects)
    requires c < j.Chunks()
    ensures c < k.Chunks() && Ids(j.Chunk(c)) == Ids(k.Chunk(c)) && Names(j.repo, j.Chunk(c)) == Names(k.repo, k.Chunk(c))
  {
    assert |j.objects| == |Ids(j.objects)| == |Ids(k.objects)| == |k.objects|;
    SameStarts(j, k, c);
    SameStarts(j, k, c + 1);
    StartsAscend(j, c);
    var lo, hi := j.Start(c), j.Start(c + 1);
    assert Ids(j.Chunk(c)) == Ids(j.objects)[lo..hi] && Ids(k.Chunk(c)) == Ids(k.objects)[lo..hi];
    NamesByIds(j.repo, j.Chunk(c), k.Chunk(c));
  }

  lemma {:induction false} SameStarts(j: Job, k: Job, c: nat)
    requires j.size == k.size && |j.objects| == |k.objects|
    ensures j.Start(c) == k.Start(c)
  {
    if c > 0 { SameStarts(j, k, c - 1); }
  }

  lemma NamesByIds(repo: string, a: seq<CanonicalObject>, b: seq<CanonicalObject>)
    requires Ids(a) == Ids(b)
    ensures Names(repo, a) == Names(repo, b)
  {
    assert |a| == |b| && forall i :: 0 <= i < |a| ==> a[i].objectId == b[i].objectId by {
      assert |a| == |Ids(a)| && |b| == |Ids(b)|;
      forall i | 0 <= i < |a| ensures a[i].objectId == b[i].objectId { assert Ids(a)[i] == Ids(b)[i]; }
    }
  }

  /** Records under the chunk keys of any derived job are true of it. */
  ghost predicate AllDerivedTrue(s: Store, size: nat, p: Primitives) {
    forall repo, objects :: ChunkRecordsTrue(s, DerivedJob(repo, objects, size, p))
  }

  lemma ChunkKeepsDerivedTrue(s: Store, repo: string, objects: seq<CanonicalObject>, c: nat, budget: nat, size: nat, rules: Rules)
    requires rules.p.Sound() && PlainDigests(rules.p) && AllDerivedTrue(s, size, rules.p)
    requires c < DerivedJob(repo, objects, size, rules.p).Chunks()
    ensures AllDerivedTrue(Push(s, DerivedJob(repo, objects, size, rules.p).Request(c), budget, rules).0, size, rules.p)
  {
    hide Push, Names, Job.ChunkKey, Job.Chunk, Job.Chunks, PlainDigests;
    var j := DerivedJob(repo, objects, size, rules.p);
    var t := Push(s, j.Request(c), budget, rules).0;
    var m := PushOutcome(s, j.Request(c), budget, rules);
    PutAllGrows(s.files, repo, j.Chunk(c)[..m], rules.p);
    forall r, b, d | 0 <= d < DerivedJob(r, b, size, rules.p).Chunks()
                     && RecordName(r, DerivedJob(r, b, size, rules.p).ChunkKey(d)) in t.records
      ensures Names(r, DerivedJob(r, b, size, rules.p).Chunk(d)) <= t.files.Keys
    {
      var k := DerivedJob(r, b, size, rules.p);
      assert ChunkRecordsTrue(s, k);
      if RecordName(r, k.ChunkKey(d)) !in s.records {
        DerivedChunkKeys(repo, objects, c, r, b, d, size, rules.p);
        SameIdsSameChunk(j, k, c);
        assert j.Chunk(c)[..m] == j.Chunk(c);
      }
    }
  }

  lemma {:induction false} AttemptKeepsDerivedTrue(s: Store, repo: string, objects: seq<CanonicalObject>, c: nat, budgets: seq<nat>, size: nat, rules: Rules)
    requires rules.p.Sound() && PlainDigests(rules.p) && AllDerivedTrue(s, size, rules.p)
    ensures AllDerivedTrue(Attempt(s, DerivedJob(repo, objects, size, rules.p), c, budgets, rules).0, size, rules.p)
    decreases |budgets|
  {
    hide Push, AllDerivedTrue, Job.ChunkKey, Job.Chunk, Job.Chunks, PlainDigests;
    var j := DerivedJob(repo, objects, size, rules.p);
    if c < j.Chunks() && budgets != [] {
      ChunkKeepsDerivedTrue(s, repo, objects, c, budgets[0], size, rules);
      AttemptKeepsDerivedTrue(Push(s, j.Request(c), budgets[0], rules).0, repo, objects, c + 1, budgets[1..], size, rules);
    }
  }

  /** In every relay reached from empty by such pushes, chunk records are true of every list. */
  lemma {:induction false} ReachableRecordsTrue(runs: seq<PushRun>, size: nat, rules: Rules)
    requires rules.p.Sound() && PlainDigests(rules.p)
    ensures AllDerivedTrue(RelayAfter(runs, size, rules), size, rules.p)
  {
    hide Attempt, PlainDigests;
    if runs != [] {
      var last := runs[|runs| - 1];
      ReachableRecordsTrue(runs[..|runs| - 1], size, rules);
      AttemptKeepsDerivedTrue(RelayAfter(runs[..|runs| - 1], size, rules), last.repo, last.objects, 0, last.budgets, size, rules);
    }
  }

  /**
   So a push that completes, after any pushes of any lists to the relay, earlier attempts at the
   same list among them, leaves every one of its objects there, and exactly the files of putting
   the whole list once.
   */
  lemma PushAmongOthersCompletes(runs: seq<PushRun>, repo: string, objects: seq<CanonicalObject>, budgets: seq<nat>, size: nat, rules: Rules)
    requires rules.p.Sound() && PlainDigests(rules.p)
    ensures var s := RelayAfter(runs, size, rules);
            var (t, done) := Attempt(s, DerivedJob(repo, objects, size, rules.p), 0, budgets, rules);
            done ==> t.files == PutAll(s.files, repo, objects, rules.p) && Names(repo, objects) <= t.files.Keys
  {
    hide Attempt, PlainDigests, RelayAfter, DerivedKey;
    ReachableRecordsTrue(runs, size, rules);
    var s, j := RelayAfter(runs, size, rules), DerivedJob(repo, objects, size, rules.p);
    assert ChunkRecordsTrue(s, j);
    NoAttempt(s, j, rules);
    if Attempt(s, j, 0, budgets, rules).1 {
      RetriedPushCompletes(s, j, [], budgets, rules);
    }
  }
}
