/**
 The projection of a pushed bundle into a graph: an ordered list of node and edge
 creations, sent in pieces of 100 until one piece fails.

 Node and edge properties are left out; the graph's shape is what is proved about.
 */
module KfdbIndex {
  import opened Text
  import opened Json
  import opened Identity
  import opened Relay
  import FileRelay
  import GcsRelay

  datatype Operation =
    | CreateNode(id: string, nodeLabel: string)
    | CreateEdge(id: string, from: string, to: string, edgeType: string)

  /** The name-based UUID of the joined parts. */
  type Uuid = seq<string> -> string

  const OPERATION_LIMIT: nat := 100

  /* ----- reading a body ----- */

  /** `body.get(field).and_then(Value::as_str)` */
  function BodyString(o: CanonicalObject, field: string): Option<string> {
    match Get(o.body, field)
    case Some(Str(s)) => Some(s)
    case _ => None
  }

  function Strings(items: seq<Value>): (r: seq<string>)
    ensures forall s :: s in r <==> Str(s) in items
  {
    if items == [] then []
    else
      assert items == [items[0]] + items[1..];
      (if items[0].Str? then [items[0].s] else []) + Strings(items[1..])
  }

  /** The strings of an array member; anything else is skipped. */
  function BodyStrings(o: CanonicalObject, field: string): seq<string> {
    match Get(o.body, field)
    case Some(Arr(items)) => Strings(items)
    case _ => []
  }

  function OrElse(a: Option<string>, b: string): string {
    match a
    case Some(s) => s
    case None => b
  }

  function FirstString(o: CanonicalObject, fields: seq<string>): Option<string> {
    if fields == [] then None
    else if BodyString(o, fields[0]).Some? then BodyString(o, fields[0])
    else FirstString(o, fields[1..])
  }

  /* ----- projections ----- */

  datatype Projection = Projection(nodeLabel: string, edgeType: string)

  /** `projection_label_and_edge` */
  function ProjectionOf(kind: string): Option<Projection> {
    if kind == "agent.intent" then Some(Projection("RickydataWorkIntent", "HAS_WORK_INTENT"))
    else if kind == "agent.attempt" then Some(Projection("RickydataAgentAttempt", "HAS_AGENT_ATTEMPT"))
    else if kind == "agent.attempt_status" then Some(Projection("RickydataAttemptStatusTransition", "HAS_ATTEMPT_STATUS"))
    else if kind == "agent.run" then Some(Projection("RickydataAgentRun", "HAS_AGENT_RUN"))
    else if kind == "agent.run_trace" then Some(Projection("RickydataAgentRunTrace", "HAS_AGENT_RUN_TRACE"))
    else if kind == "agent.change" then Some(Projection("RickydataChangeEvidence", "HAS_CHANGE_EVIDENCE"))
    else if kind == "agent.patch" then Some(Projection("RickydataPreparedPatch", "HAS_PREPARED_PATCH"))
    else if kind == "agent.patch_retirement" then Some(Projection("RickydataPatchRetirement", "SUPERSEDES_PATCH"))
    else None
  }

  /** `projection_key` */
  function ProjectionKey(o: CanonicalObject): string {
    var fields :=
      if o.kind == "agent.intent" then ["objective"]
      else if o.kind == "agent.attempt" || o.kind == "agent.attempt_status" then ["attempt_id"]
      else if o.kind == "agent.run" then ["run_id"]
      else if o.kind == "agent.run_trace" then ["trace_id", "run_id", "attempt_id"]
      else if o.kind == "agent.change" then ["change_id"]
      else if o.kind == "agent.patch" || o.kind == "agent.patch_retirement" then ["patch_id"]
      else ["trace_id", "attempt_id", "run_id", "change_id", "patch_id", "objective"];
    OrElse(FirstString(o, fields), o.objectId)
  }

  function MirrorNode(repo: string, o: CanonicalObject, uuid: Uuid): string {
    uuid(["RickydataObjectMirror", repo, o.objectId])
  }

  function ProjectionNode(repo: string, o: CanonicalObject, uuid: Uuid): string
    requires ProjectionOf(o.kind).Some?
  {
    uuid([ProjectionOf(o.kind).value.nodeLabel, repo, ProjectionKey(o)])
  }

  /** A node and an edge to it. */
  function Linked(from: string, to: string, nodeLabel: string, edgeType: string, edgeParts: seq<string>, uuid: Uuid): seq<Operation> {
    [CreateNode(to, nodeLabel), CreateEdge(uuid(edgeParts), from, to, edgeType)]
  }

  function SignatureOps(mirror: string, sigs: seq<Signature>, uuid: Uuid): seq<Operation> {
    if sigs == [] then []
    else
      var s := sigs[|sigs| - 1];
      var actor := uuid(["RickydataActor", s.publicKey]);
      SignatureOps(mirror, sigs[..|sigs| - 1], uuid)
      + Linked(mirror, actor, "RickydataActor", "SIGNED_BY", ["SIGNED_BY", mirror, actor, s.signature], uuid)
  }

  function FileOps(repo: string, from: string, paths: seq<string>, uuid: Uuid): seq<Operation> {
    if paths == [] then []
    else
      var file := uuid(["CodeFile", repo, paths[|paths| - 1]]);
      FileOps(repo, from, paths[..|paths| - 1], uuid)
      + Linked(from, file, "CodeFile", "TOUCHES_FILE", ["TOUCHES_FILE", from, file], uuid)
  }

  function ProjectionOps(repo: string, o: CanonicalObject, uuid: Uuid): seq<Operation> {
    match ProjectionOf(o.kind)
    case None => []
    case Some(projection) =>
      var mirror, node := MirrorNode(repo, o, uuid), ProjectionNode(repo, o, uuid);
      Linked(mirror, node, projection.nodeLabel, projection.edgeType, [projection.edgeType, mirror, node], uuid)
      + (if o.kind == "agent.change" || o.kind == "agent.patch"
         then FileOps(repo, node, BodyStrings(o, "file_paths"), uuid) else [])
  }

  /** `emit_lineage_edge`: from the object's own projection to the node of another object's key. */
  function LineageOps(repo: string, o: CanonicalObject, sourceLabel: string, sourceField: string,
                      targetLabel: string, targetKey: string, edgeType: string, uuid: Uuid): seq<Operation> {
    var from := uuid([sourceLabel, repo, OrElse(BodyString(o, sourceField), o.objectId)]);
    var to := uuid([targetLabel, repo, targetKey]);
    Linked(from, to, targetLabel, edgeType, [edgeType, from, to], uuid)
  }

  function LineageToAll(repo: string, o: CanonicalObject, sourceLabel: string, sourceField: string,
                        targetLabel: string, targetKeys: seq<string>, edgeType: string, uuid: Uuid): seq<Operation> {
    if targetKeys == [] then []
    else
      LineageToAll(repo, o, sourceLabel, sourceField, targetLabel, targetKeys[..|targetKeys| - 1], edgeType, uuid)
      + LineageOps(repo, o, sourceLabel, sourceField, targetLabel, targetKeys[|targetKeys| - 1], edgeType, uuid)
  }

  function Singleton(key: Option<string>): seq<string> {
    if key.Some? then [key.value] else []
  }

  /** `append_provenance_operations` */
  function ProvenanceOps(repo: string, o: CanonicalObject, uuid: Uuid): seq<Operation> {
    if o.kind == "agent.attempt" then
      LineageToAll(repo, o, "RickydataAgentAttempt", "attempt_id", "RickydataWorkIntent",
                   Singleton(BodyString(o, "intent_id")), "INTENT_CHAIN", uuid)
    else if o.kind == "agent.run" then
      LineageToAll(repo, o, "RickydataAgentRun", "run_id", "RickydataAgentAttempt",
                   Singleton(BodyString(o, "attempt_id")), "ATTEMPT_LINEAGE", uuid)
    else if o.kind == "agent.change" then
      LineageToAll(repo, o, "RickydataChangeEvidence", "change_id", "RickydataAgentRun",
                   BodyStrings(o, "run_ids") + Singleton(BodyString(o, "run_id")), "RUN_LINEAGE", uuid)
    else if o.kind == "agent.patch" then
      LineageToAll(repo, o, "RickydataPreparedPatch", "patch_id", "RickydataChangeEvidence",
                   BodyStrings(o, "change_ids") + Singleton(BodyString(o, "change_id")), "PATCH_LINEAGE", uuid)
    else []
  }

  /** The operations that open a batch. */
  function HeaderOps(repo: string, bundleHash: string, uuid: Uuid): seq<Operation> {
    var repoNode := uuid(["RickydataRepository", repo]);
    var bundle := uuid(["RickydataBundle", repo, bundleHash]);
    [CreateNode(repoNode, "RickydataRepository")]
    + Linked(repoNode, bundle, "RickydataBundle", "HAS_RICKYDATA_BUNDLE", ["HAS_RICKYDATA_BUNDLE", repoNode, bundle], uuid)
  }

  function MirrorOps(repo: string, bundleHash: string, o: CanonicalObject, uuid: Uuid): seq<Operation> {
    var repoNode := uuid(["RickydataRepository", repo]);
    var bundle := uuid(["RickydataBundle", repo, bundleHash]);
    var mirror := MirrorNode(repo, o, uuid);
    Linked(repoNode, mirror, "RickydataObjectMirror", "HAS_RICKYDATA_OBJECT", ["HAS_RICKYDATA_OBJECT", repoNode, mirror], uuid)
    + [CreateEdge(uuid(["BUNDLE_CONTAINS_OBJECT", bundle, mirror]), bundle, mirror, "BUNDLE_CONTAINS_OBJECT")]
  }

  function ObjectOps(repo: string, bundleHash: string, o: CanonicalObject, uuid: Uuid): seq<Operation> {
    MirrorOps(repo, bundleHash, o, uuid)
    + SignatureOps(MirrorNode(repo, o, uuid), o.signatures, uuid)
    + ProjectionOps(repo, o, uuid)
    + ProvenanceOps(repo, o, uuid)
  }

  function Batch(repo: string, bundleHash: string, objects: seq<CanonicalObject>, uuid: Uuid): seq<Operation> {
    if objects == [] then HeaderOps(repo, bundleHash, uuid)
    else Batch(repo, bundleHash, objects[..|objects| - 1], uuid)
         + ObjectOps(repo, bundleHash, objects[|objects| - 1], uuid)
  }

  /** The vector the `append_*` helpers push onto. */
  class OperationLog {
    var ops: seq<Operation>

    constructor ()
      ensures ops == []
    {
      ops := [];
    }

    method AppendLinked(from: string, to: string, nodeLabel: string, edgeType: string, edgeParts: seq<string>, uuid: Uuid)
      modifies this
      ensures ops == old(ops) + Linked(from, to, nodeLabel, edgeType, edgeParts, uuid)
    {
      ops := ops + [CreateNode(to, nodeLabel)];
      ops := ops + [CreateEdge(uuid(edgeParts), from, to, edgeType)];
    }

    /** `append_signature_operations` */
    method AppendSignatures(mirror: string, sigs: seq<Signature>, uuid: Uuid)
      modifies this
      ensures ops == old(ops) + SignatureOps(mirror, sigs, uuid)
    {
      for i := 0 to |sigs|
        invariant ops == old(ops) + SignatureOps(mirror, sigs[..i], uuid)
      {
        assert sigs[..i + 1][..i] == sigs[..i];
        var actor := uuid(["RickydataActor", sigs[i].publicKey]);
        AppendLinked(mirror, actor, "RickydataActor", "SIGNED_BY", ["SIGNED_BY", mirror, actor, sigs[i].signature], uuid);
      }
      assert sigs[..|sigs|] == sigs;
    }

    /** `append_projection_operations` */
    method AppendProjection(repo: string, o: CanonicalObject, uuid: Uuid)
      modifies this
      ensures ops == old(ops) + ProjectionOps(repo, o, uuid)
    {
      hide ProjectionOf, ProjectionKey, MirrorNode, ProjectionNode, BodyStrings;
      var projection := ProjectionOf(o.kind);
      if projection.None? {
        return;
      }
      var mirror, node := MirrorNode(repo, o, uuid), ProjectionNode(repo, o, uuid);
      var edgeType := projection.value.edgeType;
      AppendLinked(mirror, node, projection.value.nodeLabel, edgeType, [edgeType, mirror, node], uuid);
      if o.kind == "agent.change" || o.kind == "agent.patch" {
        var paths := BodyStrings(o, "file_paths");
        ghost var before := ops;
        for i := 0 to |paths|
          invariant ops == before + FileOps(repo, node, paths[..i], uuid)
        {
          assert paths[..i + 1][..i] == paths[..i];
          var file := uuid(["CodeFile", repo, paths[i]]);
          AppendLinked(node, file, "CodeFile", "TOUCHES_FILE", ["TOUCHES_FILE", node, file], uuid);
        }
        assert paths[..|paths|] == paths;
      }
    }

    method AppendLineage(repo: string, o: CanonicalObject, sourceLabel: string, sourceField: string,
                         targetLabel: string, targetKeys: seq<string>, edgeType: string, uuid: Uuid)
      modifies this
      ensures ops == old(ops) + LineageToAll(repo, o, sourceLabel, sourceField, targetLabel, targetKeys, edgeType, uuid)
    {
      for i := 0 to |targetKeys|
        invariant ops == old(ops) + LineageToAll(repo, o, sourceLabel, sourceField, targetLabel, targetKeys[..i], edgeType, uuid)
      {
        assert targetKeys[..i + 1][..i] == targetKeys[..i];
        var from := uuid([sourceLabel, repo, OrElse(BodyString(o, sourceField), o.objectId)]);
        var to := uuid([targetLabel, repo, targetKeys[i]]);
        AppendLinked(from, to, targetLabel, edgeType, [edgeType, from, to], uuid);
      }
      assert targetKeys[..|targetKeys|] == targetKeys;
    }

    /** `append_provenance_operations` */
    method AppendProvenance(repo: string, o: CanonicalObject, uuid: Uuid)
      modifies this
      ensures ops == old(ops) + ProvenanceOps(repo, o, uuid)
    {
      if o.kind == "agent.attempt" {
        AppendLineage(repo, o, "RickydataAgentAttempt", "attempt_id", "RickydataWorkIntent",
                      Singleton(BodyString(o, "intent_id")), "INTENT_CHAIN", uuid);
      } else if o.kind == "agent.run" {
        AppendLineage(repo, o, "RickydataAgentRun", "run_id", "RickydataAgentAttempt",
                      Singleton(BodyString(o, "attempt_id")), "ATTEMPT_LINEAGE", uuid);
      } else if o.kind == "agent.change" {
        AppendLineage(repo, o, "RickydataChangeEvidence", "change_id", "RickydataAgentRun",
                      BodyStrings(o, "run_ids") + Singleton(BodyString(o, "run_id")), "RUN_LINEAGE", uuid);
      } else if o.kind == "agent.patch" {
        AppendLineage(repo, o, "RickydataPreparedPatch", "patch_id", "RickydataChangeEvidence",
                      BodyStrings(o, "change_ids") + Singleton(BodyString(o, "change_id")), "PATCH_LINEAGE", uuid);
      }
    }

    method AppendMirror(repo: string, bundleHash: string, o: CanonicalObject, uuid: Uuid)
      modifies this
      ensures ops == old(ops) + MirrorOps(repo, bundleHash, o, uuid)
    {
      hide MirrorNode;
      var repoNode := uuid(["RickydataRepository", repo]);
      var bundle := uuid(["RickydataBundle", repo, bundleHash]);
      var mirror := MirrorNode(repo, o, uuid);
      AppendLinked(repoNode, mirror, "RickydataObjectMirror", "HAS_RICKYDATA_OBJECT", ["HAS_RICKYDATA_OBJECT", repoNode, mirror], uuid);
      ops := ops + [CreateEdge(uuid(["BUNDLE_CONTAINS_OBJECT", bundle, mirror]), bundle, mirror, "BUNDLE_CONTAINS_OBJECT")];
    }

    method AppendObject(repo: string, bundleHash: string, o: CanonicalObject, uuid: Uuid)
      modifies this
      ensures ops == old(ops) + ObjectOps(repo, bundleHash, o, uuid)
    {
      hide MirrorOps, SignatureOps, ProjectionOps, ProvenanceOps;
      AppendMirror(repo, bundleHash, o, uuid);
      AppendSignatures(MirrorNode(repo, o, uuid), o.signatures, uuid);
      AppendProjection(repo, o, uuid);
      AppendProvenance(repo, o, uuid);
    }
  }

  /** The check each object passes before it is projected: hashes only, no signatures. */
  predicate Indexable(o: CanonicalObject, rules: Rules) {
    ObjectFault(o, false, false, rules).None?
  }

  /** `kfdb_index_batch`; None when some object's hashes do not match. */
  method IndexBatch(repo: string, bundleHash: string, objects: seq<CanonicalObject>, rules: Rules, uuid: Uuid)
    returns (r: Option<seq<Operation>>)
    ensures r.Some? <==> forall i :: 0 <= i < |objects| ==> Indexable(objects[i], rules)
    ensures r.Some? ==> r.value == Batch(repo, bundleHash, objects, uuid)
  {
    hide HeaderOps, ObjectOps, ObjectFault;
    var log := new OperationLog();
    log.ops := HeaderOps(repo, bundleHash, uuid);
    for i := 0 to |objects|
      invariant fresh(log)
      invariant log.ops == Batch(repo, bundleHash, objects[..i], uuid)
      invariant forall k :: 0 <= k < i ==> Indexable(objects[k], rules)
    {
      if !Indexable(objects[i], rules) {
        return None;
      }
      assert objects[..i + 1][..i] == objects[..i];
      log.AppendObject(repo, bundleHash, objects[i], uuid);
    }
    assert objects[..|objects|] == objects;
    r := Some(log.ops);
  }

  /* ----- referential closure ----- */

  function Nodes(ops: seq<Operation>): set<string> {
    set i | 0 <= i < |ops| && ops[i].CreateNode? :: ops[i].id
  }

  /** Every edge joins nodes that are known or created by an earlier operation. */
  predicate Closed(known: set<string>, ops: seq<Operation>) {
    forall i :: 0 <= i < |ops| && ops[i].CreateEdge? ==>
      ops[i].from in known + Nodes(ops[..i]) && ops[i].to in known + Nodes(ops[..i])
  }

  lemma NodesConcat(a: seq<Operation>, b: seq<Operation>)
    ensures Nodes(a + b) == Nodes(a) + Nodes(b)
  {
    forall x | x in Nodes(a + b) ensures x in Nodes(a) + Nodes(b) {
      var i :| 0 <= i < |a + b| && (a + b)[i].CreateNode? && (a + b)[i].id == x;
      if i < |a| { assert a[i].id == x; } else { assert b[i - |a|].id == x; }
    }
    forall x | x in Nodes(a) ensures x in Nodes(a + b) {
      var i :| 0 <= i < |a| && a[i].CreateNode? && a[i].id == x;
      assert (a + b)[i] == a[i];
    }
    forall x | x in Nodes(b) ensures x in Nodes(a + b) {
      var i :| 0 <= i < |b| && b[i].CreateNode? && b[i].id == x;
      assert (a + b)[|a| + i] == b[i];
    }
  }

  lemma ClosedConcat(known: set<string>, a: seq<Operation>, b: seq<Operation>)
    requires Closed(known, a) && Closed(known + Nodes(a), b)
    ensures Closed(known, a + b)
  {
    forall i | 0 <= i < |a + b| && (a + b)[i].CreateEdge?
      ensures (a + b)[i].from in known + Nodes((a + b)[..i]) && (a + b)[i].to in known + Nodes((a + b)[..i])
    {
      if i < |a| {
        assert (a + b)[..i] == a[..i] && (a + b)[i] == a[i];
      } else {
        var k := i - |a|;
        assert (a + b)[..i] == a + b[..k] && (a + b)[i] == b[k];
        NodesConcat(a, b[..k]);
      }
    }
  }

  lemma LinkedClosed(known: set<string>, from: string, to: string, nodeLabel: string, edgeType: string, edgeParts: seq<string>, uuid: Uuid)
    requires from in known
    ensures var ops := Linked(from, to, nodeLabel, edgeType, edgeParts, uuid); Closed(known, ops) && Nodes(ops) == {to}
  {
    var ops := Linked(from, to, nodeLabel, edgeType, edgeParts, uuid);
    assert ops[0].id == to && ops[0].CreateNode?;
    assert ops[..1] == [ops[0]];
    assert to in Nodes(ops[..1]) by { assert ops[..1][0].id == to; }
    assert Nodes(ops) == {to};
  }

  lemma {:induction false} SignatureOpsClosed(known: set<string>, mirror: string, sigs: seq<Signature>, uuid: Uuid)
    requires mirror in known
    ensures Closed(known, SignatureOps(mirror, sigs, uuid))
  {
    if sigs != [] {
      var front := sigs[..|sigs| - 1];
      var s := sigs[|sigs| - 1];
      var actor := uuid(["RickydataActor", s.publicKey]);
      SignatureOpsClosed(known, mirror, front, uuid);
      var a := SignatureOps(mirror, front, uuid);
      LinkedClosed(known + Nodes(a), mirror, actor, "RickydataActor", "SIGNED_BY", ["SIGNED_BY", mirror, actor, s.signature], uuid);
      ClosedConcat(known, a, Linked(mirror, actor, "RickydataActor", "SIGNED_BY", ["SIGNED_BY", mirror, actor, s.signature], uuid));
    }
  }

  lemma {:induction false} FileOpsClosed(known: set<string>, repo: string, from: string, paths: seq<string>, uuid: Uuid)
    requires from in known
    ensures Closed(known, FileOps(repo, from, paths, uuid))
  {
    if paths != [] {
      var front := paths[..|paths| - 1];
      var file := uuid(["CodeFile", repo, paths[|paths| - 1]]);
      FileOpsClosed(known, repo, from, front, uuid);
      var a := FileOps(repo, from, front, uuid);
      LinkedClosed(known + Nodes(a), from, file, "CodeFile", "TOUCHES_FILE", ["TOUCHES_FILE", from, file], uuid);
      ClosedConcat(known, a, Linked(from, file, "CodeFile", "TOUCHES_FILE", ["TOUCHES_FILE", from, file], uuid));
    }
  }

  /** A projected object's operations are closed and create its projection node. */
  lemma ProjectionOpsClosed(known: set<string>, repo: string, o: CanonicalObject, uuid: Uuid)
    requires MirrorNode(repo, o, uuid) in known
    ensures Closed(known, ProjectionOps(repo, o, uuid))
    ensures ProjectionOf(o.kind).Some? ==> ProjectionNode(repo, o, uuid) in Nodes(ProjectionOps(repo, o, uuid))
  {
    if ProjectionOf(o.kind).Some? {
      var mirror, node := MirrorNode(repo, o, uuid), ProjectionNode(repo, o, uuid);
      var x := ProjectionOf(o.kind).value;
      var a := Linked(mirror, node, x.nodeLabel, x.edgeType, [x.edgeType, mirror, node], uuid);
      var b := if o.kind == "agent.change" || o.kind == "agent.patch"
               then FileOps(repo, node, BodyStrings(o, "file_paths"), uuid) else [];
      LinkedClosed(known, mirror, node, x.nodeLabel, x.edgeType, [x.edgeType, mirror, node], uuid);
      FileOpsClosed(known + Nodes(a), repo, node, BodyStrings(o, "file_paths"), uuid);
      ClosedConcat(known, a, b);
      NodesConcat(a, b);
    }
  }

  lemma {:induction false} LineageClosed(known: set<string>, repo: string, o: CanonicalObject, sourceLabel: string, sourceField: string,
                                         targetLabel: string, targetKeys: seq<string>, edgeType: string, uuid: Uuid)
    requires uuid([sourceLabel, repo, OrElse(BodyString(o, sourceField), o.objectId)]) in known
    ensures Closed(known, LineageToAll(repo, o, sourceLabel, sourceField, targetLabel, targetKeys, edgeType, uuid))
  {
    if targetKeys != [] {
      var front := targetKeys[..|targetKeys| - 1];
      LineageClosed(known, repo, o, sourceLabel, sourceField, targetLabel, front, edgeType, uuid);
      var a := LineageToAll(repo, o, sourceLabel, sourceField, targetLabel, front, edgeType, uuid);
      var from := uuid([sourceLabel, repo, OrElse(BodyString(o, sourceField), o.objectId)]);
      var to := uuid([targetLabel, repo, targetKeys[|targetKeys| - 1]]);
      LinkedClosed(known + Nodes(a), from, to, targetLabel, edgeType, [edgeType, from, to], uuid);
      ClosedConcat(known, a, Linked(from, to, targetLabel, edgeType, [edgeType, from, to], uuid));
    }
  }

  /** The source of each lineage edge is the object's own projection node. */
  lemma ProvenanceOpsClosed(known: set<string>, repo: string, o: CanonicalObject, uuid: Uuid)
    requires ProjectionOf(o.kind).Some? ==> ProjectionNode(repo, o, uuid) in known
    ensures Closed(known, ProvenanceOps(repo, o, uuid))
  {
    if o.kind == "agent.attempt" {
      OneField(o, "attempt_id");
      LineageClosed(known, repo, o, "RickydataAgentAttempt", "attempt_id", "RickydataWorkIntent",
                    Singleton(BodyString(o, "intent_id")), "INTENT_CHAIN", uuid);
    } else if o.kind == "agent.run" {
      OneField(o, "run_id");
      LineageClosed(known, repo, o, "RickydataAgentRun", "run_id", "RickydataAgentAttempt",
                    Singleton(BodyString(o, "attempt_id")), "ATTEMPT_LINEAGE", uuid);
    } else if o.kind == "agent.change" {
      OneField(o, "change_id");
      LineageClosed(known, repo, o, "RickydataChangeEvidence", "change_id", "RickydataAgentRun",
                    BodyStrings(o, "run_ids") + Singleton(BodyString(o, "run_id")), "RUN_LINEAGE", uuid);
    } else if o.kind == "agent.patch" {
      OneField(o, "patch_id");
      LineageClosed(known, repo, o, "RickydataPreparedPatch", "patch_id", "RickydataChangeEvidence",
                    BodyStrings(o, "change_ids") + Singleton(BodyString(o, "change_id")), "PATCH_LINEAGE", uuid);
    }
  }

  lemma OneField(o: CanonicalObject, field: string)
    ensures FirstString(o, [field]) == BodyString(o, field)
  {
    assert FirstString(o, [field][1..]) == None;
  }

  lemma HeaderClosed(repo: string, bundleHash: string, uuid: Uuid)
    ensures var ops := HeaderOps(repo, bundleHash, uuid);
            && Closed({}, ops)
            && uuid(["RickydataRepository", repo]) in Nodes(ops)
            && uuid(["RickydataBundle", repo, bundleHash]) in Nodes(ops)
  {
    var repoNode := uuid(["RickydataRepository", repo]);
    var bundle := uuid(["RickydataBundle", repo, bundleHash]);
    var a := [CreateNode(repoNode, "RickydataRepository")];
    assert repoNode in Nodes(a) by { assert a[0].id == repoNode; }
    LinkedClosed({} + Nodes(a), repoNode, bundle, "RickydataBundle", "HAS_RICKYDATA_BUNDLE", ["HAS_RICKYDATA_BUNDLE", repoNode, bundle], uuid);
    var b := Linked(repoNode, bundle, "RickydataBundle", "HAS_RICKYDATA_BUNDLE", ["HAS_RICKYDATA_BUNDLE", repoNode, bundle], uuid);
    ClosedConcat({}, a, b);
    NodesConcat(a, b);
  }

  lemma MirrorOpsClosed(known: set<string>, repo: string, bundleHash: string, o: CanonicalObject, uuid: Uuid)
    requires uuid(["RickydataRepository", repo]) in known && uuid(["RickydataBundle", repo, bundleHash]) in known
    ensures Closed(known, MirrorOps(repo, bundleHash, o, uuid))
    ensures MirrorNode(repo, o, uuid) in Nodes(MirrorOps(repo, bundleHash, o, uuid))
  {
    var repoNode := uuid(["RickydataRepository", repo]);
    var bundle := uuid(["RickydataBundle", repo, bundleHash]);
    var mirror := MirrorNode(repo, o, uuid);
    var a := Linked(repoNode, mirror, "RickydataObjectMirror", "HAS_RICKYDATA_OBJECT", ["HAS_RICKYDATA_OBJECT", repoNode, mirror], uuid);
    var b := [CreateEdge(uuid(["BUNDLE_CONTAINS_OBJECT", bundle, mirror]), bundle, mirror, "BUNDLE_CONTAINS_OBJECT")];
    LinkedClosed(known, repoNode, mirror, "RickydataObjectMirror", "HAS_RICKYDATA_OBJECT", ["HAS_RICKYDATA_OBJECT", repoNode, mirror], uuid);
    ClosedConcat(known, a, b);
    NodesConcat(a, b);
  }

  lemma ObjectOpsClosed(known: set<string>, repo: string, bundleHash: string, o: CanonicalObject, uuid: Uuid)
    requires uuid(["RickydataRepository", repo]) in known && uuid(["RickydataBundle", repo, bundleHash]) in known
    ensures Closed(known, ObjectOps(repo, bundleHash, o, uuid))
    ensures MirrorNode(repo, o, uuid) in Nodes(ObjectOps(repo, bundleHash, o, uuid))
  {
    var m := MirrorOps(repo, bundleHash, o, uuid);
    var s := SignatureOps(MirrorNode(repo, o, uuid), o.signatures, uuid);
    var j := ProjectionOps(repo, o, uuid);
    var v := ProvenanceOps(repo, o, uuid);
    MirrorOpsClosed(known, repo, bundleHash, o, uuid);
    SignatureOpsClosed(known + Nodes(m), MirrorNode(repo, o, uuid), o.signatures, uuid);
    ClosedConcat(known, m, s);
    NodesConcat(m, s);
    ProjectionOpsClosed(known + Nodes(m + s), repo, o, uuid);
    ClosedConcat(known, m + s, j);
    NodesConcat(m + s, j);
    ProvenanceOpsClosed(known + Nodes(m + s + j), repo, o, uuid);
    ClosedConcat(known, m + s + j, v);
    NodesConcat(m + s + j, v);
  }

  /** Every edge of a batch joins nodes created earlier in the batch, whatever the objects hold. */
  lemma {:induction false} BatchClosed(repo: string, bundleHash: string, objects: seq<CanonicalObject>, uuid: Uuid)
    ensures Closed({}, Batch(repo, bundleHash, objects, uuid))
    ensures uuid(["RickydataRepository", repo]) in Nodes(Batch(repo, bundleHash, objects, uuid))
    ensures uuid(["RickydataBundle", repo, bundleHash]) in Nodes(Batch(repo, bundleHash, objects, uuid))
    ensures forall i :: 0 <= i < |objects| ==> MirrorNode(repo, objects[i], uuid) in Nodes(Batch(repo, bundleHash, objects, uuid))
  {
    hide ObjectOps, HeaderOps, MirrorNode;
    if objects == [] {
      HeaderClosed(repo, bundleHash, uuid);
    } else {
      var front, o := objects[..|objects| - 1], objects[|objects| - 1];
      BatchClosed(repo, bundleHash, front, uuid);
      var a, b := Batch(repo, bundleHash, front, uuid), ObjectOps(repo, bundleHash, o, uuid);
      ObjectOpsClosed({} + Nodes(a), repo, bundleHash, o, uuid);
      ClosedConcat({}, a, b);
      NodesConcat(a, b);
      forall i | 0 <= i < |objects| ensures MirrorNode(repo, objects[i], uuid) in Nodes(a + b) {
        if i < |front| { assert front[i] == objects[i]; }
      }
    }
  }

  /* ----- what the batch links ----- */

  predicate HasEdge(ops: seq<Operation>, from: string, to: string, edgeType: string) {
    exists i :: 0 <= i < |ops| && ops[i].CreateEdge? && ops[i].from == from && ops[i].to == to && ops[i].edgeType == edgeType
  }

  /** A node, an edge to it, and what else the edge's id is made of. */
  datatype Link = Link(from: string, to: string, nodeLabel: string, edgeType: string, extra: seq<string>)

  /** Creates the link's node or its edge. */
  predicate Makes(op: Operation, x: Link, uuid: Uuid) {
    || op == CreateNode(x.to, x.nodeLabel)
    || op == CreateEdge(uuid([x.edgeType, x.from, x.to] + x.extra), x.from, x.to, x.edgeType)
  }

  ghost predicate Says(o: CanonicalObject, field: string, text: string) {
    Get(o.body, field) == Some(Str(text))
  }

  ghost predicate Lists(o: CanonicalObject, field: string, text: string) {
    && Get(o.body, field).Some? && Get(o.body, field).value.Arr?
    && Str(text) in Get(o.body, field).value.items
  }

  /** None of the first n fields holds a string. */
  ghost predicate Silent(o: CanonicalObject, fields: seq<string>, n: nat)
    requires n <= |fields|
  {
    forall j, text :: 0 <= j < n ==> !Says(o, fields[j], text)
  }

  /** What the first of these fields that holds a string says, or the object id when none does. */
  ghost predicate Names(o: CanonicalObject, fields: seq<string>, key: string) {
    || (key == o.objectId && Silent(o, fields, |fields|))
    || exists i :: 0 <= i < |fields| && Says(o, fields[i], key) && Silent(o, fields, i)
  }

  /** How an object of each kind is projected, and the text that names it. */
  ghost predicate Projects(o: CanonicalObject, nodeLabel: string, edgeType: string, key: string) {
    match o.kind
    case "agent.intent" => nodeLabel == "RickydataWorkIntent" && edgeType == "HAS_WORK_INTENT" && Names(o, ["objective"], key)
    case "agent.attempt" => nodeLabel == "RickydataAgentAttempt" && edgeType == "HAS_AGENT_ATTEMPT" && Names(o, ["attempt_id"], key)
    case "agent.attempt_status" => nodeLabel == "RickydataAttemptStatusTransition" && edgeType == "HAS_ATTEMPT_STATUS" && Names(o, ["attempt_id"], key)
    case "agent.run" => nodeLabel == "RickydataAgentRun" && edgeType == "HAS_AGENT_RUN" && Names(o, ["run_id"], key)
    case "agent.run_trace" => nodeLabel == "RickydataAgentRunTrace" && edgeType == "HAS_AGENT_RUN_TRACE" && Names(o, ["trace_id", "run_id", "attempt_id"], key)
    case "agent.change" => nodeLabel == "RickydataChangeEvidence" && edgeType == "HAS_CHANGE_EVIDENCE" && Names(o, ["change_id"], key)
    case "agent.patch" => nodeLabel == "RickydataPreparedPatch" && edgeType == "HAS_PREPARED_PATCH" && Names(o, ["patch_id"], key)
    case "agent.patch_retirement" => nodeLabel == "RickydataPatchRetirement" && edgeType == "SUPERSEDES_PATCH" && Names(o, ["patch_id"], key)
    case _ => false
  }

  /** The objects that another object names, and the edge drawn to each. */
  ghost predicate Descends(o: CanonicalObject, nodeLabel: string, key: string, edgeType: string) {
    match o.kind
    case "agent.attempt" => nodeLabel == "RickydataWorkIntent" && edgeType == "INTENT_CHAIN" && Says(o, "intent_id", key)
    case "agent.run" => nodeLabel == "RickydataAgentAttempt" && edgeType == "ATTEMPT_LINEAGE" && Says(o, "attempt_id", key)
    case "agent.change" => nodeLabel == "RickydataAgentRun" && edgeType == "RUN_LINEAGE" && (Lists(o, "run_ids", key) || Says(o, "run_id", key))
    case "agent.patch" => nodeLabel == "RickydataChangeEvidence" && edgeType == "PATCH_LINEAGE" && (Lists(o, "change_ids", key) || Says(o, "change_id", key))
    case _ => false
  }

  /** The links of an object's mirror to the repository and the bundle. */
  ghost predicate Mirrors(repo: string, bundleHash: string, o: CanonicalObject, x: Link, uuid: Uuid) {
    && x.to == uuid(["RickydataObjectMirror", repo, o.objectId]) && x.nodeLabel == "RickydataObjectMirror" && x.extra == []
    && (|| (x.from == uuid(["RickydataRepository", repo]) && x.edgeType == "HAS_RICKYDATA_OBJECT")
        || (x.from == uuid(["RickydataBundle", repo, bundleHash]) && x.edgeType == "BUNDLE_CONTAINS_OBJECT"))
  }

  ghost predicate SignedBy(repo: string, o: CanonicalObject, s: Signature, x: Link, uuid: Uuid) {
    && s in o.signatures
    && x == Link(uuid(["RickydataObjectMirror", repo, o.objectId]), uuid(["RickydataActor", s.publicKey]), "RickydataActor", "SIGNED_BY", [s.signature])
  }

  ghost predicate ProjectedAs(repo: string, o: CanonicalObject, key: string, x: Link, uuid: Uuid) {
    && Projects(o, x.nodeLabel, x.edgeType, key)
    && x.from == uuid(["RickydataObjectMirror", repo, o.objectId]) && x.to == uuid([x.nodeLabel, repo, key]) && x.extra == []
  }

  /** From the object's projection to a file it lists. */
  ghost predicate Touches(repo: string, o: CanonicalObject, nodeLabel: string, edgeType: string, key: string, path: string, x: Link, uuid: Uuid) {
    && (o.kind == "agent.change" || o.kind == "agent.patch")
    && Projects(o, nodeLabel, edgeType, key) && Lists(o, "file_paths", path)
    && x == Link(uuid([nodeLabel, repo, key]), uuid(["CodeFile", repo, path]), "CodeFile", "TOUCHES_FILE", [])
  }

  /** From the object's projection to that of one it names. */
  ghost predicate Follows(repo: string, o: CanonicalObject, nodeLabel: string, edgeType: string, key: string, other: string, x: Link, uuid: Uuid) {
    && Projects(o, nodeLabel, edgeType, key) && Descends(o, x.nodeLabel, other, x.edgeType)
    && x.from == uuid([nodeLabel, repo, key]) && x.to == uuid([x.nodeLabel, repo, other]) && x.extra == []
  }

  /** Everything an object is linked to. */
  ghost predicate Joins(repo: string, bundleHash: string, o: CanonicalObject, x: Link, uuid: Uuid) {
    || Mirrors(repo, bundleHash, o, x, uuid)
    || (exists s :: SignedBy(repo, o, s, x, uuid))
    || (exists key :: ProjectedAs(repo, o, key, x, uuid))
    || (exists nodeLabel, edgeType, key, path :: Touches(repo, o, nodeLabel, edgeType, key, path, x, uuid))
    || (exists nodeLabel, edgeType, key, other :: Follows(repo, o, nodeLabel, edgeType, key, other, x, uuid))
  }

  /** The loop over the fields finds that text. */
  lemma {:induction false} NamesMeans(o: CanonicalObject, fields: seq<string>, key: string)
    ensures Names(o, fields, key) <==> key == OrElse(FirstString(o, fields), o.objectId)
  {
    hide Says;
    if fields != [] {
      NamesMeans(o, fields[1..], key);
      FirstSays(o, fields);
      if text :| Says(o, fields[0], text) {
        assert forall n :: 0 < n <= |fields| ==> !Silent(o, fields, n);
        assert Silent(o, fields, 0);
      } else {
        SilentTail(o, fields);
        assert forall i :: 0 <= i < |fields| - 1 ==> fields[1..][i] == fields[i + 1];
        if Names(o, fields, key) && !(key == o.objectId && Silent(o, fields, |fields|)) {
          var i :| 0 <= i < |fields| && Says(o, fields[i], key) && Silent(o, fields, i);
          assert Says(o, fields[1..][i - 1], key) && Silent(o, fields[1..], i - 1);
        }
        if Names(o, fields[1..], key) && !(key == o.objectId && Silent(o, fields[1..], |fields| - 1)) {
          var i :| 0 <= i < |fields| - 1 && Says(o, fields[1..][i], key) && Silent(o, fields[1..], i);
          assert Says(o, fields[i + 1], key) && Silent(o, fields, i + 1);
        }
      }
    }
  }

  lemma FirstSays(o: CanonicalObject, fields: seq<string>)
    requires fields != []
    ensures forall text :: Says(o, fields[0], text) ==> FirstString(o, fields) == Some(text)
    ensures (forall text :: !Says(o, fields[0], text)) ==> FirstString(o, fields) == FirstString(o, fields[1..])
    ensures forall a, b :: Says(o, fields[0], a) && Says(o, fields[0], b) ==> a == b
  {
    if BodyString(o, fields[0]).Some? { assert Says(o, fields[0], BodyString(o, fields[0]).value); }
  }

  lemma SilentTail(o: CanonicalObject, fields: seq<string>)
    requires fields != [] && forall text :: !Says(o, fields[0], text)
    ensures forall n :: 0 <= n < |fields| ==> (Silent(o, fields, n + 1) <==> Silent(o, fields[1..], n))
  {
    hide Says;
    var rest := fields[1..];
    assert forall j :: 0 <= j < |rest| ==> rest[j] == fields[j + 1];
    forall n | 0 <= n < |fields| ensures Silent(o, fields, n + 1) <==> Silent(o, rest, n) {
      if Silent(o, fields, n + 1) {
        forall j, text | 0 <= j < n ensures !Says(o, rest[j], text) { assert rest[j] == fields[j + 1]; }
      }
      if Silent(o, rest, n) {
        forall j, text | 0 <= j < n + 1 ensures !Says(o, fields[j], text) {
          if j > 0 { assert !Says(o, rest[j - 1], text); }
        }
      }
    }
  }

  /** The projection table and key, against the kinds one by one. */
  lemma ProjectsMeans(o: CanonicalObject, nodeLabel: string, edgeType: string, key: string)
    ensures Projects(o, nodeLabel, edgeType, key) <==>
              ProjectionOf(o.kind) == Some(Projection(nodeLabel, edgeType)) && key == ProjectionKey(o)
  {
    hide Names, FirstString;
    forall fields ensures Names(o, fields, key) <==> key == OrElse(FirstString(o, fields), o.objectId) { NamesMeans(o, fields, key); }
  }

  lemma ListsMeans(o: CanonicalObject, field: string, text: string)
    ensures Lists(o, field, text) <==> text in BodyStrings(o, field)
  {}

  lemma LinkedMeans(x: Link, op: Operation, uuid: Uuid)
    ensures op in Linked(x.from, x.to, x.nodeLabel, x.edgeType, [x.edgeType, x.from, x.to] + x.extra, uuid) <==> Makes(op, x, uuid)
  {}

  function SignatureLink(mirror: string, s: Signature, uuid: Uuid): Link {
    Link(mirror, uuid(["RickydataActor", s.publicKey]), "RickydataActor", "SIGNED_BY", [s.signature])
  }

  lemma {:induction false} SignatureOpsMean(mirror: string, sigs: seq<Signature>, op: Operation, uuid: Uuid)
    ensures op in SignatureOps(mirror, sigs, uuid) <==> exists s :: s in sigs && Makes(op, SignatureLink(mirror, s, uuid), uuid)
  {
    hide Linked, Makes;
    if sigs != [] {
      var s, x := sigs[|sigs| - 1], SignatureLink(mirror, sigs[|sigs| - 1], uuid);
      SignatureOpsMean(mirror, sigs[..|sigs| - 1], op, uuid);
      LinkedMeans(x, op, uuid);
      assert sigs == sigs[..|sigs| - 1] + [s];
      assert ["SIGNED_BY", mirror, x.to, s.signature] == [x.edgeType, x.from, x.to] + x.extra;
    }
  }

  function FileLink(repo: string, from: string, path: string, uuid: Uuid): Link {
    Link(from, uuid(["CodeFile", repo, path]), "CodeFile", "TOUCHES_FILE", [])
  }

  lemma {:induction false} FileOpsMean(repo: string, from: string, paths: seq<string>, op: Operation, uuid: Uuid)
    ensures op in FileOps(repo, from, paths, uuid) <==> exists path :: path in paths && Makes(op, FileLink(repo, from, path, uuid), uuid)
  {
    hide Linked, Makes;
    if paths != [] {
      var path, x := paths[|paths| - 1], FileLink(repo, from, paths[|paths| - 1], uuid);
      FileOpsMean(repo, from, paths[..|paths| - 1], op, uuid);
      LinkedMeans(x, op, uuid);
      assert paths == paths[..|paths| - 1] + [path];
      assert ["TOUCHES_FILE", from, x.to] == [x.edgeType, x.from, x.to] + x.extra;
    }
  }

  function LineageLink(repo: string, from: string, nodeLabel: string, key: string, edgeType: string, uuid: Uuid): Link {
    Link(from, uuid([nodeLabel, repo, key]), nodeLabel, edgeType, [])
  }

  lemma {:induction false} LineageMeans(repo: string, o: CanonicalObject, sourceLabel: string, sourceField: string,
                                        targetLabel: string, targetKeys: seq<string>, edgeType: string, op: Operation, uuid: Uuid)
    ensures var from := uuid([sourceLabel, repo, OrElse(BodyString(o, sourceField), o.objectId)]);
            (op in LineageToAll(repo, o, sourceLabel, sourceField, targetLabel, targetKeys, edgeType, uuid)
             <==> exists key :: key in targetKeys && Makes(op, LineageLink(repo, from, targetLabel, key, edgeType, uuid), uuid))
  {
    hide Linked, Makes, BodyString;
    if targetKeys != [] {
      var from, key := uuid([sourceLabel, repo, OrElse(BodyString(o, sourceField), o.objectId)]), targetKeys[|targetKeys| - 1];
      var x := LineageLink(repo, from, targetLabel, key, edgeType, uuid);
      LineageMeans(repo, o, sourceLabel, sourceField, targetLabel, targetKeys[..|targetKeys| - 1], edgeType, op, uuid);
      LinkedMeans(x, op, uuid);
      assert targetKeys == targetKeys[..|targetKeys| - 1] + [key];
      assert [edgeType, from, x.to] == [x.edgeType, x.from, x.to] + x.extra;
    }
  }

  /** A second link to a node only adds its edge. */
  lemma BareEdge(x: Link, y: Link, op: Operation, uuid: Uuid)
    requires x.to == y.to && x.nodeLabel == y.nodeLabel
    ensures Makes(op, x, uuid) || Makes(op, y, uuid)
       <==> Makes(op, x, uuid) || op == CreateEdge(uuid([y.edgeType, y.from, y.to] + y.extra), y.from, y.to, y.edgeType)
  {}

  lemma MirrorOpsMean(repo: string, bundleHash: string, o: CanonicalObject, op: Operation, uuid: Uuid)
    ensures op in MirrorOps(repo, bundleHash, o, uuid) <==> exists x :: Mirrors(repo, bundleHash, o, x, uuid) && Makes(op, x, uuid)
  {
    hide Makes, Linked;
    var mirror := uuid(["RickydataObjectMirror", repo, o.objectId]);
    var x := Link(uuid(["RickydataRepository", repo]), mirror, "RickydataObjectMirror", "HAS_RICKYDATA_OBJECT", []);
    var y := Link(uuid(["RickydataBundle", repo, bundleHash]), mirror, "RickydataObjectMirror", "BUNDLE_CONTAINS_OBJECT", []);
    assert Mirrors(repo, bundleHash, o, x, uuid) && Mirrors(repo, bundleHash, o, y, uuid);
    assert forall z :: Mirrors(repo, bundleHash, o, z, uuid) ==> z == x || z == y;
    hide Mirrors;
    LinkedMeans(x, op, uuid);
    BareEdge(x, y, op, uuid);
    assert [x.edgeType, x.from, x.to] + x.extra == [x.edgeType, x.from, mirror];
    assert [y.edgeType, y.from, y.to] + y.extra == [y.edgeType, y.from, mirror];
  }

  /** What an object's projection and its files add. */
  lemma ProjectionOpsMean(repo: string, o: CanonicalObject, op: Operation, uuid: Uuid)
    ensures op in ProjectionOps(repo, o, uuid) <==>
              || (exists x, key :: ProjectedAs(repo, o, key, x, uuid) && Makes(op, x, uuid))
              || (exists x, nodeLabel, edgeType, key, path :: Touches(repo, o, nodeLabel, edgeType, key, path, x, uuid) && Makes(op, x, uuid))
  {
    hide Makes, Linked, FileOps, ProjectionOf, ProjectionKey, BodyStrings, Projects, Lists;
    forall l, e, k ensures Projects(o, l, e, k) <==> ProjectionOf(o.kind) == Some(Projection(l, e)) && k == ProjectionKey(o) { ProjectsMeans(o, l, e, k); }
    forall path ensures Lists(o, "file_paths", path) <==> path in BodyStrings(o, "file_paths") { ListsMeans(o, "file_paths", path); }
    if ProjectionOf(o.kind).Some? {
      var l, e, k := ProjectionOf(o.kind).value.nodeLabel, ProjectionOf(o.kind).value.edgeType, ProjectionKey(o);
      var mirror, node, paths := MirrorNode(repo, o, uuid), uuid([l, repo, k]), BodyStrings(o, "file_paths");
      var x := Link(mirror, node, l, e, []);
      assert ProjectedAs(repo, o, k, x, uuid);
      assert [x.edgeType, x.from, x.to] + x.extra == [e, mirror, node];
      LinkedMeans(x, op, uuid);
      FileOpsMean(repo, node, paths, op, uuid);
      if o.kind == "agent.change" || o.kind == "agent.patch" {
        assert forall path :: path in paths ==> Touches(repo, o, l, e, k, path, FileLink(repo, node, path, uuid), uuid);
        assert ProjectionOps(repo, o, uuid) == Linked(mirror, node, l, e, [e, mirror, node], uuid) + FileOps(repo, node, paths, uuid);
      }
    }
  }

  lemma KeysMean(keys: seq<string>, more: Option<string>)
    ensures forall key :: key in keys + Singleton(more) <==> key in keys || more == Some(key)
  {}

  /** Lineage goes from the object's own projection to that of each object it names. */
  lemma ProvenanceOpsMean(repo: string, o: CanonicalObject, op: Operation, uuid: Uuid)
    ensures op in ProvenanceOps(repo, o, uuid) <==>
              exists x, nodeLabel, edgeType, key, other :: Follows(repo, o, nodeLabel, edgeType, key, other, x, uuid) && Makes(op, x, uuid)
  {
    hide Makes, Linked, LineageToAll, BodyString, BodyStrings, Projects, ProjectionKey, Lists, Says;
    forall field, text ensures Lists(o, field, text) <==> text in BodyStrings(o, field) { ListsMeans(o, field, text); }
    forall field, text ensures Says(o, field, text) <==> BodyString(o, field) == Some(text) { SaysMeans(o, field, text); }
    OneFieldKeys(o);
    if o.kind == "agent.attempt" {
      LineageMeans(repo, o, "RickydataAgentAttempt", "attempt_id", "RickydataWorkIntent", Singleton(BodyString(o, "intent_id")), "INTENT_CHAIN", op, uuid);
      FollowsOne(repo, o, "RickydataWorkIntent", Singleton(BodyString(o, "intent_id")), "INTENT_CHAIN", op, uuid);
    } else if o.kind == "agent.run" {
      LineageMeans(repo, o, "RickydataAgentRun", "run_id", "RickydataAgentAttempt", Singleton(BodyString(o, "attempt_id")), "ATTEMPT_LINEAGE", op, uuid);
      FollowsOne(repo, o, "RickydataAgentAttempt", Singleton(BodyString(o, "attempt_id")), "ATTEMPT_LINEAGE", op, uuid);
    } else if o.kind == "agent.change" {
      var keys := BodyStrings(o, "run_ids") + Singleton(BodyString(o, "run_id"));
      LineageMeans(repo, o, "RickydataChangeEvidence", "change_id", "RickydataAgentRun", keys, "RUN_LINEAGE", op, uuid);
      KeysMean(BodyStrings(o, "run_ids"), BodyString(o, "run_id"));
      FollowsOne(repo, o, "RickydataAgentRun", keys, "RUN_LINEAGE", op, uuid);
    } else if o.kind == "agent.patch" {
      var keys := BodyStrings(o, "change_ids") + Singleton(BodyString(o, "change_id"));
      LineageMeans(repo, o, "RickydataPreparedPatch", "patch_id", "RickydataChangeEvidence", keys, "PATCH_LINEAGE", op, uuid);
      KeysMean(BodyStrings(o, "change_ids"), BodyString(o, "change_id"));
      FollowsOne(repo, o, "RickydataChangeEvidence", keys, "PATCH_LINEAGE", op, uuid);
    }
  }

  lemma SaysMeans(o: CanonicalObject, field: string, text: string)
    ensures Says(o, field, text) <==> BodyString(o, field) == Some(text)
  {}

  lemma OneFieldKeys(o: CanonicalObject)
    ensures o.kind == "agent.attempt" ==> ProjectionKey(o) == OrElse(BodyString(o, "attempt_id"), o.objectId)
    ensures o.kind == "agent.run" ==> ProjectionKey(o) == OrElse(BodyString(o, "run_id"), o.objectId)
    ensures o.kind == "agent.change" ==> ProjectionKey(o) == OrElse(BodyString(o, "change_id"), o.objectId)
    ensures o.kind == "agent.patch" ==> ProjectionKey(o) == OrElse(BodyString(o, "patch_id"), o.objectId)
    ensures o.kind == "agent.intent" ==> ProjectionKey(o) == OrElse(BodyString(o, "objective"), o.objectId)
  {
    hide BodyString, FirstString;
    OneField(o, "attempt_id");
    OneField(o, "run_id");
    OneField(o, "change_id");
    OneField(o, "patch_id");
    OneField(o, "objective");
  }

  /** With one label and edge type, what is followed is the list of keys. */
  lemma FollowsOne(repo: string, o: CanonicalObject, targetLabel: string, targetKeys: seq<string>, edgeType: string, op: Operation, uuid: Uuid)
    requires ProjectionOf(o.kind).Some?
    requires forall l, key, e :: Descends(o, l, key, e) <==> l == targetLabel && e == edgeType && key in targetKeys
    ensures (exists x, l, e, key, other :: Follows(repo, o, l, e, key, other, x, uuid) && Makes(op, x, uuid))
       <==> exists other :: other in targetKeys && Makes(op, LineageLink(repo, ProjectionNode(repo, o, uuid), targetLabel, other, edgeType, uuid), uuid)
  {
    hide Makes, Descends, Projects, ProjectionOf, ProjectionKey;
    forall l, e, k ensures Projects(o, l, e, k) <==> ProjectionOf(o.kind) == Some(Projection(l, e)) && k == ProjectionKey(o) { ProjectsMeans(o, l, e, k); }
    var l, e, k := ProjectionOf(o.kind).value.nodeLabel, ProjectionOf(o.kind).value.edgeType, ProjectionKey(o);
    forall other | other in targetKeys && Makes(op, LineageLink(repo, ProjectionNode(repo, o, uuid), targetLabel, other, edgeType, uuid), uuid)
      ensures exists x, l, e, key, other :: Follows(repo, o, l, e, key, other, x, uuid) && Makes(op, x, uuid)
    {
      assert Follows(repo, o, l, e, k, other, LineageLink(repo, ProjectionNode(repo, o, uuid), targetLabel, other, edgeType, uuid), uuid);
    }
  }

  /** What one object adds to a batch: the nodes and edges of its links. */
  lemma ObjectOpsMean(repo: string, bundleHash: string, o: CanonicalObject, op: Operation, uuid: Uuid)
    ensures op in ObjectOps(repo, bundleHash, o, uuid) <==> exists x :: Joins(repo, bundleHash, o, x, uuid) && Makes(op, x, uuid)
  {
    hide Makes, Mirrors, ProjectedAs, Touches, Follows, MirrorOps, SignatureOps, ProjectionOps, ProvenanceOps;
    MirrorOpsMean(repo, bundleHash, o, op, uuid);
    ObjectSignaturesMean(repo, o, op, uuid);
    ProjectionOpsMean(repo, o, op, uuid);
    ProvenanceOpsMean(repo, o, op, uuid);
    hide SignedBy;
    assert forall x :: Joins(repo, bundleHash, o, x, uuid) <==>
      || Mirrors(repo, bundleHash, o, x, uuid)
      || (exists s :: SignedBy(repo, o, s, x, uuid))
      || (exists key :: ProjectedAs(repo, o, key, x, uuid))
      || (exists nodeLabel, edgeType, key, path :: Touches(repo, o, nodeLabel, edgeType, key, path, x, uuid))
      || (exists nodeLabel, edgeType, key, other :: Follows(repo, o, nodeLabel, edgeType, key, other, x, uuid));
    hide Joins;
  }

  lemma ObjectSignaturesMean(repo: string, o: CanonicalObject, op: Operation, uuid: Uuid)
    ensures op in SignatureOps(MirrorNode(repo, o, uuid), o.signatures, uuid)
       <==> exists x, s :: SignedBy(repo, o, s, x, uuid) && Makes(op, x, uuid)
  {
    hide Makes, SignatureOps;
    var mirror := MirrorNode(repo, o, uuid);
    SignatureOpsMean(mirror, o.signatures, op, uuid);
    forall s | s in o.signatures ensures SignedBy(repo, o, s, SignatureLink(mirror, s, uuid), uuid) {}
  }

  /** The links of a batch: the repository's to the bundle, and each object's. */
  ghost predicate BatchJoins(repo: string, bundleHash: string, objects: seq<CanonicalObject>, x: Link, uuid: Uuid) {
    || x == Link(uuid(["RickydataRepository", repo]), uuid(["RickydataBundle", repo, bundleHash]), "RickydataBundle", "HAS_RICKYDATA_BUNDLE", [])
    || exists o :: o in objects && Joins(repo, bundleHash, o, x, uuid)
  }

  /** A batch creates the repository node and the nodes and edges of those links, these and no others. */
  lemma {:induction false} BatchMeans(repo: string, bundleHash: string, objects: seq<CanonicalObject>, op: Operation, uuid: Uuid)
    ensures op in Batch(repo, bundleHash, objects, uuid) <==>
              || op == CreateNode(uuid(["RickydataRepository", repo]), "RickydataRepository")
              || exists x :: BatchJoins(repo, bundleHash, objects, x, uuid) && Makes(op, x, uuid)
  {
    hide Makes, Joins, Linked, ObjectOps;
    var x := Link(uuid(["RickydataRepository", repo]), uuid(["RickydataBundle", repo, bundleHash]), "RickydataBundle", "HAS_RICKYDATA_BUNDLE", []);
    if objects == [] {
      LinkedMeans(x, op, uuid);
      assert [x.edgeType, x.from, x.to] + x.extra == ["HAS_RICKYDATA_BUNDLE", x.from, x.to];
      assert BatchJoins(repo, bundleHash, objects, x, uuid);
    } else {
      var front, o := objects[..|objects| - 1], objects[|objects| - 1];
      BatchMeans(repo, bundleHash, front, op, uuid);
      ObjectOpsMean(repo, bundleHash, o, op, uuid);
      assert objects == front + [o];
      assert forall y :: BatchJoins(repo, bundleHash, objects, y, uuid) <==>
        BatchJoins(repo, bundleHash, front, y, uuid) || Joins(repo, bundleHash, o, y, uuid);
    }
  }

  lemma HasEdgeMeans(ops: seq<Operation>, from: string, to: string, edgeType: string)
    ensures HasEdge(ops, from, to, edgeType) <==> exists id :: CreateEdge(id, from, to, edgeType) in ops
  {
    if i :| 0 <= i < |ops| && ops[i].CreateEdge? && ops[i].from == from && ops[i].to == to && ops[i].edgeType == edgeType {
      assert ops[i] == CreateEdge(ops[i].id, from, to, edgeType);
    }
    if id :| CreateEdge(id, from, to, edgeType) in ops {
      var i :| 0 <= i < |ops| && ops[i] == CreateEdge(id, from, to, edgeType);
    }
  }

  ghost predicate Between(x: Link, from: string, to: string, edgeType: string) {
    x.from == from && x.to == to && x.edgeType == edgeType
  }

  /**
   The edges of a batch, these and no others: each object hangs off the repository, the bundle,
   each of its signers and, when its kind is projected, its projection under the text that names
   it, which leads to the files it lists and the objects it names.
   */
  lemma EveryObjectIsLinked(repo: string, bundleHash: string, objects: seq<CanonicalObject>, from: string, to: string, edgeType: string, uuid: Uuid)
    ensures HasEdge(Batch(repo, bundleHash, objects, uuid), from, to, edgeType)
       <==> exists x :: BatchJoins(repo, bundleHash, objects, x, uuid) && Between(x, from, to, edgeType)
  {
    hide BatchJoins, Batch, HasEdge;
    var ops := Batch(repo, bundleHash, objects, uuid);
    HasEdgeMeans(ops, from, to, edgeType);
    if id :| CreateEdge(id, from, to, edgeType) in ops {
      BatchMeans(repo, bundleHash, objects, CreateEdge(id, from, to, edgeType), uuid);
    }
    if x :| BatchJoins(repo, bundleHash, objects, x, uuid) && Between(x, from, to, edgeType) {
      var op := CreateEdge(uuid([x.edgeType, x.from, x.to] + x.extra), from, to, edgeType);
      BatchMeans(repo, bundleHash, objects, op, uuid);
      assert Makes(op, x, uuid);
    }
  }

  /** Each projected object of a batch is joined to the node of its label, the repository and the text that names it. */
  lemma ProjectionEdge(repo: string, bundleHash: string, objects: seq<CanonicalObject>, o: CanonicalObject,
                       nodeLabel: string, edgeType: string, key: string, uuid: Uuid)
    requires o in objects && Projects(o, nodeLabel, edgeType, key)
    ensures HasEdge(Batch(repo, bundleHash, objects, uuid),
                    uuid(["RickydataObjectMirror", repo, o.objectId]), uuid([nodeLabel, repo, key]), edgeType)
  {
    hide Batch, HasEdge, Projects, Mirrors, SignedBy, Touches, Follows;
    var x := Link(uuid(["RickydataObjectMirror", repo, o.objectId]), uuid([nodeLabel, repo, key]), nodeLabel, edgeType, []);
    assert ProjectedAs(repo, o, key, x, uuid);
    assert Joins(repo, bundleHash, o, x, uuid);
    assert BatchJoins(repo, bundleHash, objects, x, uuid) && Between(x, x.from, x.to, x.edgeType);
    EveryObjectIsLinked(repo, bundleHash, objects, x.from, x.to, edgeType, uuid);
  }

  /** The field that names an object of this kind, and the edge its referrers draw to it. */
  predicate Refers(o: CanonicalObject, kind: string, key: string, edgeType: string) {
    || (o.kind == "agent.run" && kind == "agent.attempt" && BodyString(o, "attempt_id") == Some(key) && edgeType == "ATTEMPT_LINEAGE")
    || (o.kind == "agent.change" && kind == "agent.run" && edgeType == "RUN_LINEAGE"
        && (key in BodyStrings(o, "run_ids") || BodyString(o, "run_id") == Some(key)))
    || (o.kind == "agent.patch" && kind == "agent.change" && edgeType == "PATCH_LINEAGE"
        && (key in BodyStrings(o, "change_ids") || BodyString(o, "change_id") == Some(key)))
  }

  predicate NamedBy(o: CanonicalObject, key: string) {
    || (o.kind == "agent.attempt" && BodyString(o, "attempt_id") == Some(key))
    || (o.kind == "agent.run" && BodyString(o, "run_id") == Some(key))
    || (o.kind == "agent.change" && BodyString(o, "change_id") == Some(key))
  }

  /**
   Provenance meets: a run naming an attempt, a change naming runs and a patch naming changes
   are joined to the very nodes those objects are projected to, wherever those come from.
   */
  lemma LineageMeetsProjection(repo: string, bundleHash: string, objects: seq<CanonicalObject>, i: nat,
                               target: CanonicalObject, key: string, edgeType: string, uuid: Uuid)
    requires i < |objects| && Refers(objects[i], target.kind, key, edgeType) && NamedBy(target, key)
    ensures ProjectionOf(objects[i].kind).Some? && ProjectionOf(target.kind).Some?
    ensures HasEdge(Batch(repo, bundleHash, objects, uuid),
                    ProjectionNode(repo, objects[i], uuid), ProjectionNode(repo, target, uuid), edgeType)
  {
    hide Batch, HasEdge, BodyString, BodyStrings, Projects, Lists, Says, FirstString;
    var o := objects[i];
    OneFieldKeys(o);
    OneFieldKeys(target);
    forall l, e, k ensures Projects(o, l, e, k) <==> ProjectionOf(o.kind) == Some(Projection(l, e)) && k == ProjectionKey(o) { ProjectsMeans(o, l, e, k); }
    forall field, text ensures Lists(o, field, text) <==> text in BodyStrings(o, field) { ListsMeans(o, field, text); }
    forall field, text ensures Says(o, field, text) <==> BodyString(o, field) == Some(text) { SaysMeans(o, field, text); }
    var l, e, k := ProjectionOf(o.kind).value.nodeLabel, ProjectionOf(o.kind).value.edgeType, ProjectionKey(o);
    var x := LineageLink(repo, ProjectionNode(repo, o, uuid), ProjectionOf(target.kind).value.nodeLabel, key, edgeType, uuid);
    assert Follows(repo, o, l, e, k, key, x, uuid);
    assert Joins(repo, bundleHash, o, x, uuid);
    assert BatchJoins(repo, bundleHash, objects, x, uuid) && Between(x, x.from, x.to, x.edgeType);
    EveryObjectIsLinked(repo, bundleHash, objects, x.from, x.to, edgeType, uuid);
  }

  /** Distinct parts have distinct names. */
  ghost predicate OneToOne(uuid: Uuid) {
    forall x, y :: uuid(x) == uuid(y) ==> x == y
  }

  /** With such names two objects are projected to one node exactly when label and naming text agree. */
  lemma OneNodeMeans(repo: string, o: CanonicalObject, l1: string, e1: string, k1: string,
                     q: CanonicalObject, l2: string, e2: string, k2: string, uuid: Uuid)
    requires OneToOne(uuid) && Projects(o, l1, e1, k1) && Projects(q, l2, e2, k2)
    ensures uuid([l1, repo, k1]) == uuid([l2, repo, k2]) <==> l1 == l2 && k1 == k2
  {
    var x, y := [l1, repo, k1], [l2, repo, k2];
    assert x == y <==> x[0] == y[0] && x[2] == y[2];
  }

  /** Traces of different runs are kept apart: with different trace ids, no edge from either mirror ends where one from the other does. */
  lemma TracesApart(repo: string, bundleHash: string, objects: seq<CanonicalObject>, o: CanonicalObject, q: CanonicalObject,
                    a: string, b: string, uuid: Uuid)
    requires OneToOne(uuid) && o in objects && q in objects && o.kind == "agent.run_trace" && q.kind == "agent.run_trace"
    requires Says(o, "trace_id", a) && Says(q, "trace_id", b) && a != b
    ensures var ops, m, n := Batch(repo, bundleHash, objects, uuid), uuid(["RickydataAgentRunTrace", repo, a]), uuid(["RickydataAgentRunTrace", repo, b]);
            && HasEdge(ops, uuid(["RickydataObjectMirror", repo, o.objectId]), m, "HAS_AGENT_RUN_TRACE")
            && HasEdge(ops, uuid(["RickydataObjectMirror", repo, q.objectId]), n, "HAS_AGENT_RUN_TRACE")
            && m != n
  {
    hide Batch, HasEdge, Says;
    TraceNames(o, a);
    TraceNames(q, b);
    ProjectionEdge(repo, bundleHash, objects, o, "RickydataAgentRunTrace", "HAS_AGENT_RUN_TRACE", a, uuid);
    ProjectionEdge(repo, bundleHash, objects, q, "RickydataAgentRunTrace", "HAS_AGENT_RUN_TRACE", b, uuid);
    OneNodeMeans(repo, o, "RickydataAgentRunTrace", "HAS_AGENT_RUN_TRACE", a, q, "RickydataAgentRunTrace", "HAS_AGENT_RUN_TRACE", b, uuid);
  }

  lemma TraceNames(o: CanonicalObject, a: string)
    requires o.kind == "agent.run_trace" && Says(o, "trace_id", a)
    ensures Projects(o, "RickydataAgentRunTrace", "HAS_AGENT_RUN_TRACE", a)
  {
    hide Says;
    assert ["trace_id", "run_id", "attempt_id"][0] == "trace_id";
    assert Says(o, ["trace_id", "run_id", "attempt_id"][0], a);
  }

  /**
   An attempt's intent edge goes to a node named by the intent's id, while the intent itself is
   projected under its objective: the two are one node exactly when those are the same text.
   */
  lemma IntentEdgeMissesIntent(repo: string, bundleHash: string, objects: seq<CanonicalObject>, attempt: CanonicalObject, intent: CanonicalObject,
                               key: string, objective: string, uuid: Uuid)
    requires OneToOne(uuid) && attempt.kind == "agent.attempt" && intent.kind == "agent.intent" && attempt in objects && intent in objects
    requires Says(attempt, "intent_id", intent.objectId) && Names(attempt, ["attempt_id"], key) && Says(intent, "objective", objective)
    ensures var ops, named, own := Batch(repo, bundleHash, objects, uuid), uuid(["RickydataWorkIntent", repo, intent.objectId]), uuid(["RickydataWorkIntent", repo, objective]);
            && HasEdge(ops, uuid(["RickydataAgentAttempt", repo, key]), named, "INTENT_CHAIN")
            && HasEdge(ops, uuid(["RickydataObjectMirror", repo, intent.objectId]), own, "HAS_WORK_INTENT")
            && (named == own <==> intent.objectId == objective)
  {
    hide Batch, HasEdge, Says, Names;
    var x := LineageLink(repo, uuid(["RickydataAgentAttempt", repo, key]), "RickydataWorkIntent", intent.objectId, "INTENT_CHAIN", uuid);
    assert Projects(attempt, "RickydataAgentAttempt", "HAS_AGENT_ATTEMPT", key);
    assert Follows(repo, attempt, "RickydataAgentAttempt", "HAS_AGENT_ATTEMPT", key, intent.objectId, x, uuid);
    assert Joins(repo, bundleHash, attempt, x, uuid);
    assert BatchJoins(repo, bundleHash, objects, x, uuid) && Between(x, x.from, x.to, x.edgeType);
    EveryObjectIsLinked(repo, bundleHash, objects, x.from, x.to, x.edgeType, uuid);
    ObjectiveNames(intent, objective);
    ProjectionEdge(repo, bundleHash, objects, intent, "RickydataWorkIntent", "HAS_WORK_INTENT", objective, uuid);
    var a, b := ["RickydataWorkIntent", repo, intent.objectId], ["RickydataWorkIntent", repo, objective];
    assert a == b <==> a[2] == b[2];
  }

  lemma ObjectiveNames(o: CanonicalObject, objective: string)
    requires Says(o, "objective", objective)
    ensures Names(o, ["objective"], objective)
  {
    hide Says;
    assert Says(o, ["objective"][0], objective);
  }

  /* ----- delivery that may be cut short ----- */

  /** The graph: nodes, and edges as pairs of ends. */
  datatype Graph = Graph(nodes: set<string>, edges: set<(string, string)>) {
    predicate Closed() { forall e :: e in edges ==> e.0 in nodes && e.1 in nodes }
  }

  function Apply(g: Graph, op: Operation): Graph {
    match op
    case CreateNode(id, _) => g.(nodes := g.nodes + {id})
    case CreateEdge(_, from, to, _) => g.(edges := g.edges + {(from, to)})
  }

  function ApplyAll(g: Graph, ops: seq<Operation>): Graph {
    if ops == [] then g else Apply(ApplyAll(g, ops[..|ops| - 1]), ops[|ops| - 1])
  }

  /** How many pieces succeed before the first failure. */
  function FirstFailure(outcomes: seq<bool>): (k: nat)
    ensures k <= |outcomes| && (forall i :: 0 <= i < k ==> outcomes[i]) && (k < |outcomes| ==> !outcomes[k])
  {
    if outcomes == [] || !outcomes[0] then 0 else 1 + FirstFailure(outcomes[1..])
  }

  function Least(a: nat, b: nat): nat { if a < b then a else b }

  /**
   `IndexedRelayStore::push_bundle`'s loop: pieces of 100, the first failure ends it. The
   piece that fails may have been applied in part: `partial` operations of it. `outcomes` may
   also end early, when the process does.
   */
  method Deliver(ops: seq<Operation>, outcomes: seq<bool>, partial: nat) returns (delivered: seq<Operation>)
    ensures delivered <= ops
    ensures var k := FirstFailure(outcomes);
            |delivered| == Least(|ops|, k * OPERATION_LIMIT + if k < |outcomes| then Least(partial, OPERATION_LIMIT) else 0)
  {
    var sent, k := 0, 0;
    while sent < |ops|
      invariant sent <= |ops| && k <= FirstFailure(outcomes)
      invariant sent == k * OPERATION_LIMIT || (sent == |ops| && sent <= k * OPERATION_LIMIT)
    {
      if k == |outcomes| {
        return ops[..sent];
      }
      var end := if sent + OPERATION_LIMIT < |ops| then sent + OPERATION_LIMIT else |ops|;
      if !outcomes[k] {
        return ops[..if sent + partial < end then sent + partial else end];
      }
      sent, k := end, k + 1;
    }
    delivered := ops[..sent];
  }

  lemma {:induction false} ApplyAllClosed(g: Graph, ops: seq<Operation>)
    requires g.Closed() && Closed(g.nodes, ops)
    ensures ApplyAll(g, ops).Closed()
    ensures ApplyAll(g, ops).nodes == g.nodes + Nodes(ops)
  {
    if ops != [] {
      var front, op := ops[..|ops| - 1], ops[|ops| - 1];
      forall i | 0 <= i < |front| && front[i].CreateEdge?
        ensures front[i].from in g.nodes + Nodes(front[..i]) && front[i].to in g.nodes + Nodes(front[..i])
      {
        assert front[..i] == ops[..i] && front[i] == ops[i];
      }
      ApplyAllClosed(g, front);
      assert ops == front + [op];
      NodesConcat(front, [op]);
      if op.CreateNode? {
        assert Nodes([op]) == {op.id} by { assert [op][0].id == op.id; }
      }
    }
  }

  /** However delivery ends, the graph has no dangling edge. */
  lemma CutDeliveryStaysClosed(g: Graph, repo: string, bundleHash: string, objects: seq<CanonicalObject>, delivered: seq<Operation>, uuid: Uuid)
    requires g.Closed()
    ensures delivered <= Batch(repo, bundleHash, objects, uuid) ==> ApplyAll(g, delivered).Closed()
  {
    hide Batch;
    var ops := Batch(repo, bundleHash, objects, uuid);
    BatchClosed(repo, bundleHash, objects, uuid);
    if delivered <= ops {
      assert delivered == ops[..|delivered|];
      forall i | 0 <= i < |delivered| && delivered[i].CreateEdge?
        ensures delivered[i].from in g.nodes + Nodes(delivered[..i]) && delivered[i].to in g.nodes + Nodes(delivered[..i])
      {
        assert delivered[..i] == ops[..i] && delivered[i] == ops[i];
      }
      ApplyAllClosed(g, delivered);
    }
  }

  /* ----- projection after a push ----- */

  lemma ValidIsIndexable(request: PushRequest, rules: Rules)
    requires ValidBundle(request, rules)
    ensures forall i :: 0 <= i < |request.objects| ==> Indexable(request.objects[i], rules)
  {
    forall i | 0 <= i < |request.objects| ensures Indexable(request.objects[i], rules) {
      assert ValidObject(request.repo, request.objects[i], rules);
    }
  }

  /** A push to the file store that returns a report, replayed or not, never fails in the projection that follows. */
  lemma AcceptedIsIndexable(s: FileRelay.Store, request: PushRequest, budget: nat, rules: Rules)
    requires FileRelay.Push(s, request, budget, rules).1.Ok?
    ensures forall i :: 0 <= i < |request.objects| ==> Indexable(request.objects[i], rules)
  {
    hide FileRelay.WriteObjects, FileRelay.Report, FirstFault;
    NoFault(request.repo, request.objects, rules);
    ValidIsIndexable(request, rules);
  }

  /** Nor does any push to the bucket, in any interleaving. */
  lemma BucketAcceptedIsIndexable(s: GcsRelay.State, run: seq<GcsRelay.Action>, t: GcsRelay.State, i: nat, rules: Rules)
    requires GcsRelay.AtRest(s, rules) && GcsRelay.Reaches(s, run, t, rules) && i < |t.pushers|
    ensures forall k :: 0 <= k < |t.pushers[i].request.objects| ==> Indexable(t.pushers[i].request.objects[k], rules)
  {
    hide GcsRelay.Reaches, Indexable;
    GcsRelay.RunFacts(s, run, t, rules);
    ValidIsIndexable(t.pushers[i].request, rules);
  }

  /**
   The projection takes its objects from the request. They are all stored exactly when the
   push was not a replay, or the replayed request brings nothing the store lacks.
   */
  lemma ProjectedObjectsStored(s: FileRelay.Store, request: PushRequest, budget: nat, rules: Rules)
    requires FileRelay.Push(s, request, budget, rules).1.Ok?
    ensures FileRelay.Names(request.repo, request.objects) <= FileRelay.Push(s, request, budget, rules).0.files.Keys
       <==> FileRelay.RecordOf(request) !in s.records || FileRelay.Names(request.repo, request.objects) <= s.files.Keys
  {
    hide FirstFault, FileRelay.Report, FileRelay.FirstClash, FileRelay.WriteObjects, FileRelay.PutAll, FileRelay.Names;
    FileRelay.WriteObjectsCounts(s.files, request.repo, request.objects, budget, rules.p);
    FileRelay.PutAllGrows(s.files, request.repo, request.objects, rules.p);
  }

  /**
   With the bucket: after a call that did not just replay a record, all its objects are stored;
   a call that replayed one stored nothing, so they are stored exactly if somebody else did.
   */
  lemma BucketProjectedObjectsStored(s: GcsRelay.State, run: seq<GcsRelay.Action>, t: GcsRelay.State, i: nat, rules: Rules)
    requires GcsRelay.AtRest(s, rules) && GcsRelay.Reaches(s, run, t, rules)
    requires i < |t.pushers| && t.pushers[i].stage.Done?
    ensures var u := t.pushers[i];
            && (!u.Replayed() ==> forall k :: 0 <= k < |u.request.objects| ==> u.Name(k) in t.objects)
            && (u.Replayed() ==> u.next == 0 && u.accepted == 0 && u.duplicate == 0)
  {
    hide GcsRelay.Reaches;
    GcsRelay.RunFacts(s, run, t, rules);
    assert GcsRelay.PusherOk(t.pushers[i], t.objects, t.records);
  }

  /** And nobody else need have: for every valid bundle there is a run in which its push returns and none of it is stored. */
  lemma BucketReplayStoresNothing(request: PushRequest, rules: Rules) returns (run: seq<GcsRelay.Action>, t: GcsRelay.State)
    requires ValidBundle(request, rules) && request.objects != []
    ensures GcsRelay.Reaches(GcsRelay.EmptyBucket(), run, t, rules)
    ensures |t.pushers| == 2 && t.pushers[1].request == request && t.pushers[1].stage.Done? && t.pushers[1].Replayed()
    ensures t.objects == map[]
  {
    run, t := GcsRelay.ReplayRun(request, rules);
  }
}
