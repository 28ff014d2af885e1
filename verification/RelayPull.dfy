/**
 `relay pull`: the relay returns objects the client does not know, at most `limit` of them,
 and the client asks again until nothing is missing.

 The listing is the relay's own order of its object ids: by id in the file store, by the
 hash of the id in the bucket. Nothing below depends on which.
 */
module RelayPull {
  import opened Text

  datatype PullReport = PullReport(ids: seq<string>, remaining: nat)

  predicate Distinct(s: seq<string>) {
    forall i, j :: 0 <= i < j < |s| ==> s[i] != s[j]
  }

  /** `retain(|id| !known.contains(id))` */
  function Missing(listing: seq<string>, known: set<string>): (r: seq<string>)
    ensures |r| <= |listing|
    ensures forall id :: id in r <==> id in listing && id !in known
  {
    if listing == [] then []
    else
      var rest := Missing(listing[1..], known);
      if listing[0] in known then rest else [listing[0]] + rest
  }

  /** `pull_bundle` */
  function Pull(listing: seq<string>, known: set<string>, limit: Option<nat>): PullReport {
    var missing := Missing(listing, known);
    var most := if limit.Some? then limit.value else |missing|;
    if most >= |missing| then PullReport(missing, 0)
    else PullReport(missing[..most], |missing| - most)
  }

  /** The known ids after each of these has been written. */
  function Learn(known: set<string>, ids: seq<string>): (r: set<string>)
    ensures forall id :: id in r <==> id in known || id in ids
  {
    if ids == [] then known
    else
      var front, last := ids[..|ids| - 1], ids[|ids| - 1];
      assert ids == front + [last];
      Learn(known, front) + {last}
  }

  /** The client's writes: `cached` are the ids with a cache file, which decides how one is counted. */
  method WriteObjects(ids: seq<string>, known: set<string>, cached: set<string>)
    returns (known': set<string>, cached': set<string>, written: nat, duplicate: nat)
    ensures known' == Learn(known, ids) && cached' == Learn(cached, ids)
    ensures written + duplicate == |ids|
    ensures written == |cached'| - |cached|
  {
    known', cached', written, duplicate := known, cached, 0, 0;
    for i := 0 to |ids|
      invariant known' == Learn(known, ids[..i]) && cached' == Learn(cached, ids[..i])
      invariant written + duplicate == i
      invariant written == |cached'| - |cached|
    {
      assert ids[..i + 1][..i] == ids[..i];
      AddOne(cached', ids[i]);
      if ids[i] in cached' {
        duplicate := duplicate + 1;
      } else {
        written := written + 1;
      }
      known', cached' := known' + {ids[i]}, cached' + {ids[i]};
    }
    assert ids[..|ids|] == ids;
  }

  lemma AddOne(s: set<string>, x: string)
    ensures |s + {x}| == |s| + if x in s then 0 else 1
  {
    if x in s { assert s + {x} == s; }
  }

  /** One `relay pull`. */
  method PullOnce(listing: seq<string>, known: set<string>, cached: set<string>, limit: Option<nat>)
    returns (known': set<string>, cached': set<string>, written: nat, duplicate: nat, remaining: nat)
    ensures known' == Learn(known, Pull(listing, known, limit).ids)
    ensures cached' == Learn(cached, Pull(listing, known, limit).ids)
    ensures written + duplicate + remaining == |Missing(listing, known)|
    ensures written == |cached'| - |cached|
  {
    var report := Pull(listing, known, limit);
    known', cached', written, duplicate := WriteObjects(report.ids, known, cached);
    remaining := report.remaining;
  }

  /** The client's ids after n pulls with the same limit. */
  function After(listing: seq<string>, known: set<string>, limit: Option<nat>, n: nat): set<string> {
    if n == 0 then known
    else
      var before := After(listing, known, limit, n - 1);
      Learn(before, Pull(listing, before, limit).ids)
  }

  /* ----- what one pull returns ----- */

  lemma {:induction false} MissingDistinct(listing: seq<string>, known: set<string>)
    requires Distinct(listing)
    ensures Distinct(Missing(listing, known))
  {
    if listing != [] {
      var tail := listing[1..];
      MissingDistinct(tail, known);
      assert listing[0] !in tail;
    }
  }

  /** New ids only, no id twice, and returned plus remaining is what was missing. */
  lemma PullAccounts(listing: seq<string>, known: set<string>, limit: Option<nat>)
    requires Distinct(listing)
    ensures var report := Pull(listing, known, limit);
            && Distinct(report.ids)
            && (forall id :: id in report.ids ==> id in listing && id !in known)
            && |report.ids| + report.remaining == |Missing(listing, known)|
            && (limit.Some? ==> |report.ids| <= limit.value)
            && (report.ids == [] <==> Missing(listing, known) == [] || limit == Some(0))
  {
    MissingDistinct(listing, known);
  }

  /* ----- repeated pulls ----- */

  lemma {:induction false} MissingConcat(a: seq<string>, b: seq<string>, known: set<string>)
    ensures Missing(a + b, known) == Missing(a, known) + Missing(b, known)
  {
    if a == [] {
      assert a + b == b;
    } else {
      assert (a + b)[1..] == a[1..] + b;
      MissingConcat(a[1..], b, known);
    }
  }

  lemma {:induction false} MissingTwice(listing: seq<string>, known: set<string>, more: set<string>)
    ensures Missing(Missing(listing, known), more) == Missing(listing, known + more)
  {
    if listing != [] {
      MissingTwice(listing[1..], known, more);
      var rest := Missing(listing[1..], known);
      if listing[0] !in known { assert ([listing[0]] + rest)[1..] == rest; }
    }
  }

  lemma {:induction false} MissingAll(s: seq<string>, known: set<string>)
    requires forall id :: id in s ==> id !in known
    ensures Missing(s, known) == s
  {
    if s != [] { MissingAll(s[1..], known); }
  }

  /** Learning the first k missing ids leaves exactly the others missing. */
  lemma MissingAfter(listing: seq<string>, known: set<string>, k: nat)
    requires Distinct(listing) && k <= |Missing(listing, known)|
    ensures Missing(listing, Learn(known, Missing(listing, known)[..k])) == Missing(listing, known)[k..]
  {
    var s := Missing(listing, known);
    var learned := Learn({}, s[..k]);
    MissingDistinct(listing, known);
    MissingTwice(listing, known, learned);
    assert Learn(known, s[..k]) == known + learned;
    SplitMissing(s, k, learned);
  }

  lemma SplitMissing(s: seq<string>, k: nat, learned: set<string>)
    requires Distinct(s) && k <= |s| && learned == Learn({}, s[..k])
    ensures Missing(s, learned) == s[k..]
  {
    assert s == s[..k] + s[k..];
    MissingConcat(s[..k], s[k..], learned);
    NoneMissing(s[..k], learned);
    forall id | id in s[k..] ensures id !in learned { PartsDisjoint(s, k, id); }
    MissingAll(s[k..], learned);
  }

  lemma PartsDisjoint(s: seq<string>, k: nat, id: string)
    requires Distinct(s) && k <= |s| && id in s[k..]
    ensures id !in s[..k]
  {
    var i :| k <= i < |s| && s[i] == id;
    forall j | 0 <= j < k ensures s[..k][j] != id { assert s[..k][j] == s[j]; }
  }

  lemma {:induction false} NoneMissing(s: seq<string>, known: set<string>)
    requires forall id :: id in s ==> id in known
    ensures Missing(s, known) == []
  {
    if s != [] { NoneMissing(s[1..], known); }
  }

  function DropUpTo(s: seq<string>, k: nat): seq<string> {
    if k < |s| then s[k..] else []
  }

  lemma DropTwice(s: seq<string>, k: nat, l: nat)
    ensures DropUpTo(DropUpTo(s, k), l) == DropUpTo(s, k + l)
  {}

  lemma NextPull(listing: seq<string>, known: set<string>, L: nat)
    requires Distinct(listing)
    ensures Missing(listing, Learn(known, Pull(listing, known, Some(L)).ids)) == DropUpTo(Missing(listing, known), L)
  {
    var s := Missing(listing, known);
    MissingAfter(listing, known, if L < |s| then L else |s|);
    assert s[..|s|] == s;
  }

  lemma TimesStep(n: nat, L: nat)
    ensures n > 0 ==> n * L == (n - 1) * L + L
  {}

  lemma OneMorePull(listing: seq<string>, known: set<string>, L: nat, n: nat, k: nat)
    requires Distinct(listing) && n > 0
    requires Missing(listing, After(listing, known, Some(L), n - 1)) == DropUpTo(Missing(listing, known), k)
    ensures Missing(listing, After(listing, known, Some(L), n)) == DropUpTo(Missing(listing, known), k + L)
  {
    NextPull(listing, After(listing, known, Some(L), n - 1), L);
    DropTwice(Missing(listing, known), k, L);
  }

  /** After n pulls of L, exactly the first k = n * L missing ids have been learned. */
  lemma {:induction false} AfterPulls(listing: seq<string>, known: set<string>, L: nat, n: nat, k: nat)
    requires Distinct(listing) && k == n * L
    ensures Missing(listing, After(listing, known, Some(L), n)) == DropUpTo(Missing(listing, known), k)
  {
    if n == 0 {
      DropNone(Missing(listing, known));
    } else {
      TimesStep(n, L);
      AfterPulls(listing, known, L, n - 1, (n - 1) * L);
      OneMorePull(listing, known, L, n, (n - 1) * L);
    }
  }

  lemma DropNone(s: seq<string>)
    ensures DropUpTo(s, 0) == s
  {}

  /**
   Against a fixed relay, pull number n (from 0) returns something exactly while n is less
   than the missing count divided by L and rounded up; after that many pulls the client
   knows everything the relay lists, and no pull ever forgets an id.
   */
  lemma PullsTerminate(listing: seq<string>, known: set<string>, L: nat, n: nat)
    requires Distinct(listing) && L > 0
    ensures var rounds := ChunksOf(|Missing(listing, known)|, L);
            && (Pull(listing, After(listing, known, Some(L), n), Some(L)).ids != [] <==> n < rounds)
            && (n >= rounds <==> forall id :: id in listing ==> id in After(listing, known, Some(L), n))
  {
    AfterPulls(listing, known, L, n, n * L);
    PieceExists(|Missing(listing, known)|, L, n);
    var now := After(listing, known, Some(L), n);
    PullAccounts(listing, now, Some(L));
    KnowsAll(listing, now);
  }

  lemma KnowsAll(listing: seq<string>, known: set<string>)
    ensures Missing(listing, known) == [] <==> forall id :: id in listing ==> id in known
  {
    if Missing(listing, known) != [] {
      assert Missing(listing, known)[0] in Missing(listing, known);
    } else {
      forall id | id in listing ensures id in known { assert id !in Missing(listing, known); }
    }
  }

  /** Without a limit one pull brings everything. */
  lemma UnlimitedPull(listing: seq<string>, known: set<string>, id: string)
    requires id in listing
    ensures id in After(listing, known, None, 1)
  {
    assert After(listing, known, None, 0) == known;
    assert id in known || id in Missing(listing, known);
  }

  /** A limit of zero never brings anything. */
  lemma {:induction false} ZeroLimit(listing: seq<string>, known: set<string>, n: nat)
    ensures After(listing, known, Some(0), n) == known
  {
    if n > 0 {
      ZeroLimit(listing, known, n - 1);
      assert Pull(listing, known, Some(0)).ids == [];
    }
  }
}
