/**
 Signed compare-and-swap on Git refs. An update reads the ref and later runs one ref
 transaction; any number of updates run at once, and any may stop for good at any point.
 */
module SignedRefs {
  import opened Text
  import opened Identity
  import opened Reading
  import Relay
  import ObjectStore

  type Refs = map<string, string>

  datatype Expectation = Expectation(refName: string, expected: Option<string>, newOid: string, signature: Signature)

  datatype Status = Created | UpdatedFromExpected | AlreadyAtNewOid

  datatype Report = Report(refName: string, newOid: string, previous: Option<string>, status: Status)

  datatype RefError =
    | SignatureUnusable
    | BadSignature
    | Mismatch(expected: Option<string>, found: Option<string>)
    | NotAnOid
    | TransactionRefused

  datatype RefResult = Accepted(report: Report) | Refused(error: RefError) {
    /** The ref was moved by this call. */
    predicate Moved() { Accepted? && !report.status.AlreadyAtNewOid? }
  }

  /**
   Printing, Ed25519 over a message, and how Git reads "must not exist": refusing every ref that
   exists, or accepting one that is already at the new id.
   */
  datatype Keys = Keys(p: Primitives, verify: (string, Signature) -> Relay.SignatureCheck, acceptsSame: bool)

  function Lookup(refs: Refs, name: string): Option<string> {
    if name in refs then Some(refs[name]) else None
  }

  predicate AllHex(s: string) {
    forall i :: 0 <= i < |s| ==> ObjectStore.IsHex(s[i])
  }

  /** `ObjectId::from_hex`: forty hex digits of either case, kept in lower case. */
  function ParseOid(s: string): Option<string> {
    if |s| == 40 && AllHex(s) then Some(seq(40, i requires 0 <= i < 40 => ObjectStore.LowerHex(s[i]))) else None
  }

  lemma ParseOidTwice(s: string)
    requires ParseOid(s).Some?
    ensures ParseOid(ParseOid(s).value) == ParseOid(s)
    ensures ParseOid(s).value == s <==> ObjectStore.LowerCase(s)
  {
    var o := ParseOid(s).value;
    forall i | 0 <= i < 40 ensures ObjectStore.IsHex(o[i]) && ObjectStore.LowerHex(o[i]) == o[i]
                           && (o[i] == s[i] <==> !('A' <= s[i] <= 'F'))
    {
      assert ObjectStore.IsHex(s[i]);
    }
    assert ParseOid(o).value == o;
  }

  /** The signature check that comes first. */
  function Refusal(e: Expectation, keys: Keys): Option<RefError> {
    match keys.verify(RefMessage(e.refName, e.expected, e.newOid, keys.p), e.signature)
    case Unverifiable => Some(SignatureUnusable)
    case Verdict(ok) => if ok then None else Some(BadSignature)
  }

  /** What the value read settles on its own; None sends the update on to its transaction. */
  function Decide(e: Expectation, found: Option<string>): Option<RefResult> {
    if e.expected != found then Some(Refused(Mismatch(e.expected, found)))
    else if found == Some(e.newOid) then Some(Accepted(Report(e.refName, e.newOid, found, AlreadyAtNewOid)))
    else None
  }

  /** The ref transaction: the ref must be absent, or must hold the expected id, at this moment. */
  function Transact(refs: Refs, e: Expectation, acceptsSame: bool): (Refs, RefResult) {
    match ParseOid(e.newOid)
    case None => (refs, Refused(NotAnOid))
    case Some(oid) =>
      match e.expected
      case None =>
        if e.refName in refs && !(acceptsSame && refs[e.refName] == oid) then (refs, Refused(TransactionRefused))
        else (refs[e.refName := oid], Accepted(Report(e.refName, e.newOid, None, Created)))
      case Some(prev) =>
        if ParseOid(prev).None? then (refs, Refused(NotAnOid))
        else if Lookup(refs, e.refName) != ParseOid(prev) then (refs, Refused(TransactionRefused))
        else (refs[e.refName := oid], Accepted(Report(e.refName, e.newOid, Some(prev), UpdatedFromExpected)))
  }

  class GitRefs {
    var refs: Refs

    constructor ()
      ensures refs == map[]
    {
      refs := map[];
    }

    /** `write_git_object_ref_with_expectation`, running alone. */
    method WriteRefWithExpectation(e: Expectation, keys: Keys) returns (r: RefResult)
      modifies this
      ensures (refs, r) == Alone(old(refs), e, keys)
    {
      hide ParseOid, RefMessage;
      var refusal := Refusal(e, keys);
      if refusal.Some? {
        return Refused(refusal.value);
      }
      var current := Lookup(refs, e.refName);
      if e.expected.None? && current.None? {
      } else if e.expected.Some? && current.Some? && e.expected.value == current.value {
        if current.value == e.newOid {
          return Accepted(Report(e.refName, e.newOid, current, AlreadyAtNewOid));
        }
      } else {
        return Refused(Mismatch(e.expected, current));
      }
      var oid := ParseOid(e.newOid);
      if oid.None? {
        return Refused(NotAnOid);
      }
      if e.expected.Some? {
        var previous := ParseOid(e.expected.value);
        if previous.None? {
          return Refused(NotAnOid);
        }
        if current != previous {
          return Refused(TransactionRefused);
        }
      }
      refs := refs[e.refName := oid.value];
      r := Accepted(Report(e.refName, e.newOid, current, if e.expected.None? then Created else UpdatedFromExpected));
    }
  }

  function Alone(refs: Refs, e: Expectation, keys: Keys): (Refs, RefResult) {
    if Refusal(e, keys).Some? then (refs, Refused(Refusal(e, keys).value))
    else
      var decided := Decide(e, Lookup(refs, e.refName));
      if decided.Some? then (refs, decided.value) else Transact(refs, e, keys.acceptsSame)
  }

  /** Forty hex digits. */
  predicate NamesObject(s: string) {
    |s| == 40 && forall i :: 0 <= i < 40 ==> Reading.HexValue(s[i]).Some?
  }

  /** The same digits, in lower case. */
  predicate KeptAs(s: string, oid: string) {
    && |s| == |oid| && (forall i :: 0 <= i < |s| ==> Reading.HexValue(oid[i]) == Reading.HexValue(s[i]))
    && ObjectStore.LowerCase(oid)
  }

  lemma ParseOidMeans(s: string)
    ensures ParseOid(s).Some? <==> NamesObject(s)
    ensures ParseOid(s).Some? ==> KeptAs(s, ParseOid(s).value)
    ensures ObjectStore.LowerCase(s) ==> ParseOid(s).None? || ParseOid(s).value == s
  {
    if ParseOid(s).Some? { ParseOidTwice(s); }
    forall i | 0 <= i < |s| ensures ObjectStore.IsHex(s[i]) <==> Reading.HexValue(s[i]).Some? {}
  }

  /**
   When an uninterrupted update succeeds and with which report: it is signed, the ref is as
   expected, and the new id is what the ref holds already or names an object. Only then is the
   ref set, to that id in lower case; everything else fails, each case with its own error.
   */
  lemma UpdateOutcome(refs: Refs, e: Expectation, keys: Keys)
    requires OidsOnly(refs)
    ensures var (after, r) := Alone(refs, e, keys);
            var found := if e.refName in refs then Some(refs[e.refName]) else None;
            var check := keys.verify(RefMessage(e.refName, e.expected, e.newOid, keys.p), e.signature);
            if check != Relay.Verdict(true) then
              after == refs && r == Refused(if check == Relay.Verdict(false) then BadSignature else SignatureUnusable)
            else if e.expected != found then
              after == refs && r == Refused(Mismatch(e.expected, found))
            else if found == Some(e.newOid) then
              after == refs && r == Accepted(Report(e.refName, e.newOid, found, AlreadyAtNewOid))
            else if !NamesObject(e.newOid) then
              after == refs && r == Refused(NotAnOid)
            else
              && e.refName in after && after == refs[e.refName := after[e.refName]] && KeptAs(e.newOid, after[e.refName])
              && r == Accepted(Report(e.refName, e.newOid, found, if e.refName in refs then UpdatedFromExpected else Created))
  {
    hide RefMessage, ParseOid, NamesObject, KeptAs;
    ParseOidMeans(e.newOid);
    if e.refName in refs { assert IsOid(refs[e.refName]); }
  }

  /* ----- any number of updates at once ----- */

  datatype Stage = Reading | Ready(seen: Option<string>) | Finished(result: RefResult)

  datatype Updater = Updater(e: Expectation, stage: Stage)

  /** A transaction that went through. */
  datatype Entry = Entry(who: nat, refName: string, expected: Option<string>, oid: string)

  datatype State = State(refs: Refs, updaters: seq<Updater>, log: seq<Entry>)

  datatype Action = Begin(e: Expectation) | Read(i: nat) | Commit(i: nat)

  function Started(e: Expectation, keys: Keys): Updater {
    Updater(e, if Refusal(e, keys).Some? then Finished(Refused(Refusal(e, keys).value)) else Reading)
  }

  function AfterRead(u: Updater, refs: Refs): Updater {
    var found := Lookup(refs, u.e.refName);
    u.(stage := if Decide(u.e, found).Some? then Finished(Decide(u.e, found).value) else Ready(found))
  }

  function CommitOne(s: State, i: nat, keys: Keys): State
    requires i < |s.updaters|
  {
    var u := s.updaters[i];
    var (refs, result) := Transact(s.refs, u.e, keys.acceptsSame);
    var log := if result.Moved() then s.log + [Entry(i, u.e.refName, u.e.expected, refs[u.e.refName])] else s.log;
    State(refs, s.updaters[i := u.(stage := Finished(result))], log)
  }

  /** An action that is not enabled changes nothing. */
  function Step(s: State, a: Action, keys: Keys): State {
    match a
    case Begin(e) => s.(updaters := s.updaters + [Started(e, keys)])
    case Read(i) =>
      if i < |s.updaters| && s.updaters[i].stage.Reading?
      then s.(updaters := s.updaters[i := AfterRead(s.updaters[i], s.refs)]) else s
    case Commit(i) =>
      if i < |s.updaters| && s.updaters[i].stage.Ready? then CommitOne(s, i, keys) else s
  }

  function Run(start: Refs, actions: seq<Action>, keys: Keys): State {
    if actions == [] then State(start, [], [])
    else Step(Run(start, actions[..|actions| - 1], keys), actions[|actions| - 1], keys)
  }

  /** An update whose three steps are not interrupted is the plain call. */
  lemma UninterruptedIsAlone(s: State, e: Expectation, keys: Keys)
    ensures var i := |s.updaters|;
            var t := Step(Step(Step(s, Begin(e), keys), Read(i), keys), Commit(i), keys);
            && t.refs == Alone(s.refs, e, keys).0
            && t.updaters == s.updaters + [Updater(e, Finished(Alone(s.refs, e, keys).1))]
  {
    hide Refusal, Decide, Transact;
    var i := |s.updaters|;
    var s1 := Step(s, Begin(e), keys);
    var s2 := Step(s1, Read(i), keys);
    assert s1.updaters[i] == Started(e, keys);
    assert s2.updaters == s.updaters + [s2.updaters[i]];
  }

  /* ----- the chain ----- */

  /** What a ref holds after the logged transactions, when it held `start` before them. */
  function ValueAfter(log: seq<Entry>, name: string, start: Refs): Option<string> {
    if log == [] then Lookup(start, name)
    else if log[|log| - 1].refName == name then Some(log[|log| - 1].oid)
    else ValueAfter(log[..|log| - 1], name, start)
  }

  /** A creation that found the ref already at its new id and was let through. */
  predicate Echo(x: Entry, found: Option<string>, acceptsSame: bool) {
    acceptsSame && x.expected.None? && found == Some(x.oid)
  }

  predicate Follows(x: Entry, found: Option<string>, acceptsSame: bool) {
    x.expected == found || Echo(x, found, acceptsSame)
  }

  /** Each update expected exactly what the one before it on the same ref left, but for echoes. */
  ghost predicate Chain(log: seq<Entry>, start: Refs, acceptsSame: bool) {
    forall k :: 0 <= k < |log| ==> Follows(log[k], ValueAfter(log[..k], log[k].refName, start), acceptsSame)
  }

  ghost predicate Current(s: State, start: Refs) {
    forall name :: Lookup(s.refs, name) == ValueAfter(s.log, name, start)
  }

  predicate IsOid(s: string) { ParseOid(s) == Some(s) }

  ghost predicate OidsOnly(refs: Refs) {
    forall name :: name in refs ==> IsOid(refs[name])
  }

  /** An update past its signature check is signed; one past its read expects what it read. */
  predicate UpdaterOk(u: Updater, keys: Keys) {
    && (u.stage.Reading? || u.stage.Ready? ==> Refusal(u.e, keys).None?)
    && (u.stage.Ready? ==> u.e.expected == u.stage.seen && (u.stage.seen.Some? ==> IsOid(u.stage.seen.value)))
    && (u.stage.Finished? && u.stage.result.Moved() ==> Refusal(u.e, keys).None?)
  }

  ghost predicate UpdatersOk(s: State, keys: Keys) {
    forall i :: 0 <= i < |s.updaters| ==> UpdaterOk(s.updaters[i], keys)
  }

  predicate MovedBy(s: State, i: nat) {
    i < |s.updaters| && s.updaters[i].stage.Finished? && s.updaters[i].stage.result.Moved()
  }

  /** The entry tells what its updater was sent and reported. */
  predicate EntryOk(s: State, x: Entry) {
    && MovedBy(s, x.who)
    && var u := s.updaters[x.who];
    && u.e.refName == x.refName && u.e.expected == x.expected && ParseOid(u.e.newOid) == Some(x.oid)
    && u.stage.result.report == Report(x.refName, u.e.newOid, x.expected, if x.expected.None? then Created else UpdatedFromExpected)
  }

  ghost predicate EntriesOk(s: State) {
    && (forall k :: 0 <= k < |s.log| ==> EntryOk(s, s.log[k]))
    && (forall j, k :: 0 <= j < k < |s.log| ==> s.log[j].who != s.log[k].who)
  }

  ghost predicate Logged(s: State, i: nat) {
    exists k :: 0 <= k < |s.log| && s.log[k].who == i
  }

  ghost predicate AllLogged(s: State) {
    forall i: nat :: MovedBy(s, i) ==> Logged(s, i)
  }

  ghost predicate Inv(s: State, start: Refs, keys: Keys) {
    OidsOnly(s.refs) && UpdatersOk(s, keys) && EntriesOk(s) && AllLogged(s) && Chain(s.log, start, keys.acceptsSame) && Current(s, start)
  }

  lemma ChainGrows(log: seq<Entry>, x: Entry, start: Refs, acceptsSame: bool)
    requires Chain(log, start, acceptsSame) && Follows(x, ValueAfter(log, x.refName, start), acceptsSame)
    ensures Chain(log + [x], start, acceptsSame)
    ensures forall name :: ValueAfter(log + [x], name, start) == if name == x.refName then Some(x.oid) else ValueAfter(log, name, start)
  {
    hide ValueAfter;
    var all := log + [x];
    assert all[..|log|] == log;
    forall k | 0 <= k < |all| ensures Follows(all[k], ValueAfter(all[..k], all[k].refName, start), acceptsSame) {
      if k < |log| { assert all[..k] == log[..k] && all[k] == log[k]; }
    }
    forall name ensures ValueAfter(all, name, start) == if name == x.refName then Some(x.oid) else ValueAfter(log, name, start) {
      ValueAfterSnoc(log, x, name, start);
    }
  }

  lemma ValueAfterSnoc(log: seq<Entry>, x: Entry, name: string, start: Refs)
    ensures ValueAfter(log + [x], name, start) == if name == x.refName then Some(x.oid) else ValueAfter(log, name, start)
  {
    assert (log + [x])[..|log|] == log;
  }

  /** A transaction that goes through found its expected value and left its new one. */
  lemma TransactMoves(refs: Refs, e: Expectation, acceptsSame: bool)
    requires OidsOnly(refs) && (e.expected.Some? ==> IsOid(e.expected.value))
    ensures var (after, r) := Transact(refs, e, acceptsSame);
            && OidsOnly(after)
            && (r.Moved() <==> r.Accepted?)
            && (!r.Moved() ==> after == refs)
            && (r.Moved() ==>
                  && ParseOid(e.newOid).Some?
                  && (Lookup(refs, e.refName) == e.expected
                      || (acceptsSame && e.expected.None? && Lookup(refs, e.refName) == ParseOid(e.newOid)))
                  && after == refs[e.refName := ParseOid(e.newOid).value]
                  && r.report == Report(e.refName, e.newOid, e.expected, if e.expected.None? then Created else UpdatedFromExpected))
  {
    if ParseOid(e.newOid).Some? { ParseOidTwice(e.newOid); }
    hide ParseOid;
  }

  lemma CommitKeepsLog(s: State, i: nat, start: Refs, keys: Keys)
    requires Inv(s, start, keys) && i < |s.updaters| && s.updaters[i].stage.Ready?
    ensures var t := CommitOne(s, i, keys); OidsOnly(t.refs) && Chain(t.log, start, keys.acceptsSame) && Current(t, start)
  {
    hide Transact, ParseOid, ValueAfter, EntryOk;
    var u := s.updaters[i];
    assert UpdaterOk(u, keys);
    TransactMoves(s.refs, u.e, keys.acceptsSame);
    var (refs, r) := Transact(s.refs, u.e, keys.acceptsSame);
    if r.Moved() {
      var x := Entry(i, u.e.refName, u.e.expected, refs[u.e.refName]);
      assert Lookup(s.refs, x.refName) == ValueAfter(s.log, x.refName, start);
      ChainGrows(s.log, x, start, keys.acceptsSame);
    }
  }

  lemma CommitKeepsEntries(s: State, i: nat, start: Refs, keys: Keys)
    requires Inv(s, start, keys) && i < |s.updaters| && s.updaters[i].stage.Ready?
    ensures var t := CommitOne(s, i, keys); UpdatersOk(t, keys) && EntriesOk(t) && AllLogged(t)
  {
    hide Transact, ParseOid, ValueAfter, Refusal, Chain, Current;
    var u, t := s.updaters[i], CommitOne(s, i, keys);
    assert UpdaterOk(u, keys);
    TransactMoves(s.refs, u.e, keys.acceptsSame);
    forall k | 0 <= k < |s.log| ensures s.log[k].who != i && EntryOk(t, s.log[k]) {
      assert EntryOk(s, s.log[k]);
    }
    forall j | MovedBy(t, j) ensures Logged(t, j) {
      if j == i {
        assert t.log[|s.log|].who == i;
      } else {
        assert MovedBy(s, j) && Logged(s, j);
        var k :| 0 <= k < |s.log| && s.log[k].who == j;
        assert t.log[k].who == j;
      }
    }
  }

  /** Replacing an updater that moved nothing by one that moved nothing keeps the log's facts. */
  lemma QuietStep(s: State, t: State, start: Refs, keys: Keys)
    requires Inv(s, start, keys) && t.refs == s.refs && t.log == s.log && UpdatersOk(t, keys)
    requires forall i: nat :: MovedBy(s, i) <==> MovedBy(t, i)
    requires forall i: nat :: MovedBy(s, i) ==> i < |t.updaters| && t.updaters[i] == s.updaters[i]
    ensures Inv(t, start, keys)
  {
    hide Refusal, Chain, IsOid;
    forall k | 0 <= k < |t.log| ensures EntryOk(t, t.log[k]) { assert EntryOk(s, s.log[k]); }
    forall i | MovedBy(t, i) ensures Logged(t, i) {
      assert Logged(s, i);
      var k :| 0 <= k < |s.log| && s.log[k].who == i;
      assert t.log[k].who == i;
    }
  }

  lemma StepKeepsInv(s: State, a: Action, start: Refs, keys: Keys)
    requires Inv(s, start, keys)
    ensures Inv(Step(s, a, keys), start, keys)
  {
    hide Refusal, Transact, ParseOid, Chain, Current, EntriesOk, AllLogged;
    match a {
      case Begin(e) =>
        QuietStep(s, Step(s, a, keys), start, keys);
      case Read(i) =>
        if i < |s.updaters| && s.updaters[i].stage.Reading? {
          assert UpdaterOk(s.updaters[i], keys);
          assert forall j: nat :: MovedBy(s, j) ==> j != i;
          assert !AfterRead(s.updaters[i], s.refs).stage.Finished? || !AfterRead(s.updaters[i], s.refs).stage.result.Moved();
          QuietStep(s, Step(s, a, keys), start, keys);
        }
      case Commit(i) =>
        if i < |s.updaters| && s.updaters[i].stage.Ready? {
          CommitKeepsLog(s, i, start, keys);
          CommitKeepsEntries(s, i, start, keys);
        }
    }
  }

  lemma {:induction false} RunKeepsInv(start: Refs, actions: seq<Action>, keys: Keys)
    requires OidsOnly(start)
    ensures Inv(Run(start, actions, keys), start, keys)
  {
    hide Step, UpdaterOk, EntryOk;
    if actions != [] {
      RunKeepsInv(start, actions[..|actions| - 1], keys);
      StepKeepsInv(Run(start, actions[..|actions| - 1], keys), actions[|actions| - 1], start, keys);
    }
  }

  /* ----- what it comes to ----- */

  /**
   However the steps interleave, the transactions that went through form, ref by ref, a chain
   from the starting value to the present one: no update is lost.
   */
  lemma NoLostUpdate(start: Refs, actions: seq<Action>, keys: Keys)
    requires OidsOnly(start)
    ensures var s := Run(start, actions, keys);
            && Chain(s.log, start, keys.acceptsSame)
            && forall name :: Lookup(s.refs, name) == ValueAfter(s.log, name, start)
  {
    hide Run;
    RunKeepsInv(start, actions, keys);
  }

  /**
   Next to each other on one ref, the later update expected exactly the id the earlier one wrote,
   or is an echo of it.
   */
  lemma NeighboursMeet(start: Refs, actions: seq<Action>, keys: Keys, j: nat, k: nat)
    requires OidsOnly(start)
    requires var log := Run(start, actions, keys).log;
             && j < k < |log| && log[j].refName == log[k].refName
             && forall m :: j < m < k ==> log[m].refName != log[k].refName
    ensures var log := Run(start, actions, keys).log; Follows(log[k], Some(log[j].oid), keys.acceptsSame)
  {
    hide Run;
    RunKeepsInv(start, actions, keys);
    ValueOfLast(Run(start, actions, keys).log[..k], j, start);
  }

  lemma {:induction false} ValueOfLast(log: seq<Entry>, j: nat, start: Refs)
    requires j < |log| && forall m :: j < m < |log| ==> log[m].refName != log[j].refName
    ensures ValueAfter(log, log[j].refName, start) == Some(log[j].oid)
  {
    if j < |log| - 1 { ValueOfLast(log[..|log| - 1], j, start); }
  }

  lemma {:induction false} ValueStaysSome(log: seq<Entry>, j: nat, name: string, start: Refs)
    requires j < |log| && log[j].refName == name
    ensures ValueAfter(log, name, start).Some?
  {
    if j < |log| - 1 { ValueStaysSome(log[..|log| - 1], j, name, start); }
  }

  predicate CreatedRef(s: State, i: nat, name: string) {
    MovedBy(s, i) && s.updaters[i].e.refName == name && s.updaters[i].stage.result.report.status.Created?
  }

  lemma CreationIsLogged(start: Refs, actions: seq<Action>, keys: Keys, i: nat, name: string) returns (k: nat)
    requires OidsOnly(start) && CreatedRef(Run(start, actions, keys), i, name)
    ensures var s := Run(start, actions, keys);
            && k < |s.log| && s.log[k].who == i && s.log[k].refName == name && s.log[k].expected.None?
            && ParseOid(s.updaters[i].e.newOid) == Some(s.log[k].oid)
            && Chain(s.log, start, keys.acceptsSame)
  {
    hide Run, ParseOid, UpdaterOk, ValueAfter;
    RunKeepsInv(start, actions, keys);
    var s := Run(start, actions, keys);
    assert Logged(s, i);
    k :| 0 <= k < |s.log| && s.log[k].who == i;
    assert EntryOk(s, s.log[k]);
  }

  /**
   Where "must not exist" refuses every ref that exists: of all updates racing to create a ref at
   most one succeeds, and none when it was there at the start.
   */
  lemma AtMostOneCreator(start: Refs, actions: seq<Action>, keys: Keys, i: nat, j: nat, name: string)
    requires OidsOnly(start) && !keys.acceptsSame
    requires CreatedRef(Run(start, actions, keys), i, name) && CreatedRef(Run(start, actions, keys), j, name)
    ensures i == j && name !in start
  {
    hide Run, ParseOid, ValueAfter;
    var a := CreationIsLogged(start, actions, keys, i, name);
    var b := CreationIsLogged(start, actions, keys, j, name);
    var log := Run(start, actions, keys).log;
    CreationComesFirst(log, a, start);
    CreationComesFirst(log, b, start);
    assert !(a < b) && !(b < a);
  }

  lemma CreationComesFirst(log: seq<Entry>, k: nat, start: Refs)
    requires Chain(log, start, false) && k < |log| && log[k].expected.None?
    ensures log[k].refName !in start
    ensures forall j :: 0 <= j < k ==> log[j].refName != log[k].refName
  {
    forall j | 0 <= j < k ensures log[j].refName != log[k].refName {
      if log[j].refName == log[k].refName { ValueStaysSome(log[..k], j, log[k].refName, start); }
    }
    StartAbsent(log[..k], log[k].refName, start);
  }

  /** An update of this ref, from this place in the log on, that expected some id. */
  predicate MovedBetween(log: seq<Entry>, a: nat, b: nat, name: string, oid: string) {
    exists k :: a < k < b <= |log| && log[k].refName == name && log[k].expected.Some? && log[k].oid == oid
  }

  /**
   However Git reads it: two updates that both report creating one ref reported the same new id,
   unless an update from an expected id moved the ref to the later one's id in between.
   */
  lemma CreatorsAgree(start: Refs, actions: seq<Action>, keys: Keys, i: nat, j: nat, name: string)
    requires OidsOnly(start)
    requires CreatedRef(Run(start, actions, keys), i, name) && CreatedRef(Run(start, actions, keys), j, name)
    ensures var s := Run(start, actions, keys);
            || ParseOid(s.updaters[i].e.newOid) == ParseOid(s.updaters[j].e.newOid)
            || exists a: nat, b: nat, oid :: a < |s.log| && b < |s.log| && {s.log[a].who, s.log[b].who} == {i, j}
                 && ParseOid(s.updaters[s.log[b].who].e.newOid) == Some(oid) && MovedBetween(s.log, a, b, name, oid)
  {
    hide Run, ParseOid, ValueAfter, MovedBetween;
    var a := CreationIsLogged(start, actions, keys, i, name);
    var b := CreationIsLogged(start, actions, keys, j, name);
    var s := Run(start, actions, keys);
    if s.log[a].oid != s.log[b].oid {
      if a < b {
        CreatedAfter(s.log, a, b, start, keys.acceptsSame);
        assert {s.log[a].who, s.log[b].who} == {i, j};
      } else {
        CreatedAfter(s.log, b, a, start, keys.acceptsSame);
        assert {s.log[b].who, s.log[a].who} == {i, j};
      }
    }
  }

  /** A creation logged after another found the ref at its own id. */
  lemma CreatedAfter(log: seq<Entry>, a: nat, b: nat, start: Refs, acceptsSame: bool)
    requires Chain(log, start, acceptsSame) && a < b < |log| && log[a].refName == log[b].refName
    requires log[a].expected.None? && log[b].expected.None? && log[a].oid != log[b].oid
    ensures MovedBetween(log, a, b, log[b].refName, log[b].oid)
  {
    hide ValueAfter, MovedBetween;
    ValueStaysSome(log[..b], a, log[b].refName, start);
    assert Follows(log[b], ValueAfter(log[..b], log[b].refName, start), acceptsSame);
    SomeMove(log, a, b, log[b].refName, log[b].oid, start, acceptsSame);
  }

  /** If the ref holds another id than entry a left, some later entry from an expected id left it. */
  lemma {:induction false} SomeMove(log: seq<Entry>, a: nat, b: nat, name: string, oid: string, start: Refs, acceptsSame: bool)
    requires Chain(log, start, acceptsSame) && a < b <= |log| && log[a].refName == name
    requires log[a].oid != oid && ValueAfter(log[..b], name, start) == Some(oid)
    ensures MovedBetween(log, a, b, name, oid)
    decreases b
  {
    assert log[..b][..b - 1] == log[..b - 1];
    if log[b - 1].refName != name {
      SomeMove(log, a, b - 1, name, oid, start, acceptsSame);
      WiderMove(log, a, b - 1, name, oid);
    } else if log[b - 1].expected.None? {
      assert b - 1 > a;
      ValueStaysSome(log[..b - 1], a, name, start);
      assert Follows(log[b - 1], ValueAfter(log[..b - 1], name, start), acceptsSame);
      SomeMove(log, a, b - 1, name, oid, start, acceptsSame);
      WiderMove(log, a, b - 1, name, oid);
    } else {
      assert b - 1 > a;
    }
  }

  lemma WiderMove(log: seq<Entry>, a: nat, b: nat, name: string, oid: string)
    requires b < |log| && MovedBetween(log, a, b, name, oid)
    ensures MovedBetween(log, a, b + 1, name, oid)
  {}

  lemma {:induction false} StartAbsent(log: seq<Entry>, name: string, start: Refs)
    requires ValueAfter(log, name, start).None?
    ensures name !in start
  {
    if log != [] { StartAbsent(log[..|log| - 1], name, start); }
  }

  lemma RunSnoc(start: Refs, actions: seq<Action>, a: Action, keys: Keys)
    ensures Run(start, actions + [a], keys) == Step(Run(start, actions, keys), a, keys)
  {
    hide Step;
    assert (actions + [a])[..|actions|] == actions;
  }

  function Create(name: string, oid: string, sig: Signature): Expectation { Expectation(name, None, oid, sig) }

  /** Two creations read the ref as absent; the first is done, updated to the second's id, and the second follows. */
  function LateCreation(name: string, x: string, y: string, a: Signature, b: Signature, c: Signature): seq<Action> {
    [Begin(Create(name, x, a)), Begin(Create(name, y, b)), Read(0), Read(1), Commit(0)]
    + [Begin(Expectation(name, Some(x), y, c)), Read(2), Commit(2), Commit(1)]
  }

  /** That update in between is needed and does happen: then two creations report different ids. */
  lemma CreatorsMayDiffer(name: string, x: string, y: string, a: Signature, b: Signature, c: Signature, keys: Keys)
    requires keys.acceptsSame && IsOid(x) && IsOid(y) && x != y
    requires Refusal(Create(name, x, a), keys).None? && Refusal(Create(name, y, b), keys).None?
    requires Refusal(Expectation(name, Some(x), y, c), keys).None?
    ensures var s := Run(map[], LateCreation(name, x, y, a, b, c), keys);
            && CreatedRef(s, 0, name) && CreatedRef(s, 1, name)
            && s.updaters[0].stage.result.report.newOid == x && s.updaters[1].stage.result.report.newOid == y
  {
    hide Run, ParseOid, Refusal;
    var u0, u1, u2 := Create(name, x, a), Create(name, y, b), Expectation(name, Some(x), y, c);
    var s0 := State(map[], [], []);
    var s2 := Step(Step(s0, Begin(u0), keys), Begin(u1), keys);
    assert s2.updaters == [Updater(u0, Reading), Updater(u1, Reading)];
    var s4 := Step(Step(s2, Read(0), keys), Read(1), keys);
    assert s4.updaters == [Updater(u0, Ready(None)), Updater(u1, Ready(None))];
    var s5 := Step(s4, Commit(0), keys);
    assert s5.refs == map[name := x];
    var s7 := Step(Step(s5, Begin(u2), keys), Read(2), keys);
    assert s7.updaters[2] == Updater(u2, Ready(Some(x)));
    var s8 := Step(s7, Commit(2), keys);
    assert s8.refs == map[name := y] && s8.updaters[1] == Updater(u1, Ready(None));
    LateCreationRuns(name, x, y, a, b, c, keys);
  }

  lemma LateCreationRuns(name: string, x: string, y: string, a: Signature, b: Signature, c: Signature, keys: Keys)
    ensures var s0 := State(map[], [], []);
            var s2 := Step(Step(s0, Begin(Create(name, x, a)), keys), Begin(Create(name, y, b)), keys);
            var s5 := Step(Step(Step(s2, Read(0), keys), Read(1), keys), Commit(0), keys);
            var s7 := Step(Step(s5, Begin(Expectation(name, Some(x), y, c)), keys), Read(2), keys);
            Run(map[], LateCreation(name, x, y, a, b, c), keys) == Step(Step(s7, Commit(2), keys), Commit(1), keys)
  {
    hide Step, Run;
    var l0: seq<Action> := [];
    var l1 := l0 + [Begin(Create(name, x, a))];
    var l2 := l1 + [Begin(Create(name, y, b))];
    var l3 := l2 + [Read(0)];
    var l4 := l3 + [Read(1)];
    var l5 := l4 + [Commit(0)];
    var l6 := l5 + [Begin(Expectation(name, Some(x), y, c))];
    var l7 := l6 + [Read(2)];
    var l8 := l7 + [Commit(2)];
    NothingRuns(keys);
    RunSnoc(map[], l0, Begin(Create(name, x, a)), keys);
    RunSnoc(map[], l1, Begin(Create(name, y, b)), keys);
    RunSnoc(map[], l2, Read(0), keys);
    RunSnoc(map[], l3, Read(1), keys);
    RunSnoc(map[], l4, Commit(0), keys);
    RunSnoc(map[], l5, Begin(Expectation(name, Some(x), y, c)), keys);
    RunSnoc(map[], l6, Read(2), keys);
    RunSnoc(map[], l7, Commit(2), keys);
    RunSnoc(map[], l8, Commit(1), keys);
    assert LateCreation(name, x, y, a, b, c) == l8 + [Commit(1)];
  }

  lemma NothingRuns(keys: Keys)
    ensures Run(map[], [], keys) == State(map[], [], [])
  {}

  /** An update somebody meant to make. */
  datatype Intent = Intent(refName: string, expected: Option<string>, newOid: string)

  function MessageOf(x: Intent, p: Primitives): string { RefMessage(x.refName, x.expected, x.newOid, p) }

  /** Only the messages of these intents verify. */
  ghost predicate OnlySigned(intents: set<Intent>, keys: Keys) {
    forall message, sig :: keys.verify(message, sig) == Relay.Verdict(true) ==>
      exists x :: x in intents && message == MessageOf(x, keys.p)
  }

  /** Every change to a ref carries out exactly one signed intent: this ref, from this id, to this id. */
  lemma EveryMoveWasSigned(start: Refs, actions: seq<Action>, keys: Keys, intents: set<Intent>, k: nat)
    requires keys.p.Sound() && OidsOnly(start) && OnlySigned(intents, keys)
    requires k < |Run(start, actions, keys).log|
    ensures var s := Run(start, actions, keys);
            exists x :: x in intents && x.refName == s.log[k].refName && x.expected == s.log[k].expected
                        && ParseOid(x.newOid) == Some(s.log[k].oid)
  {
    hide Run, ParseOid, RefMessage;
    RunKeepsInv(start, actions, keys);
    var s := Run(start, actions, keys);
    assert EntryOk(s, s.log[k]);
    var u := s.updaters[s.log[k].who];
    assert UpdaterOk(u, keys);
    var message := RefMessage(u.e.refName, u.e.expected, u.e.newOid, keys.p);
    assert keys.verify(message, u.e.signature) == Relay.Verdict(true);
    var x :| x in intents && message == MessageOf(x, keys.p);
    RefMessageInjective(u.e.refName, u.e.expected, u.e.newOid, x.refName, x.expected, x.newOid, keys.p);
  }

  /**
   A report repeats the new id as it was given, while the ref holds it in lower case: they
   are the same exactly when the id was given in lower case.
   */
  lemma ReportedOidCase(start: Refs, actions: seq<Action>, keys: Keys, k: nat)
    requires OidsOnly(start) && k < |Run(start, actions, keys).log|
    ensures var s := Run(start, actions, keys);
            && MovedBy(s, s.log[k].who)
            && (s.updaters[s.log[k].who].stage.result.report.newOid == s.log[k].oid
                <==> ObjectStore.LowerCase(s.updaters[s.log[k].who].e.newOid))
  {
    hide Run;
    RunKeepsInv(start, actions, keys);
    var s := Run(start, actions, keys);
    assert EntryOk(s, s.log[k]);
    ParseOidTwice(s.updaters[s.log[k].who].e.newOid);
  }
}
