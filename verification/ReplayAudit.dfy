/** The replay-completeness audit: a verdict per trace from stamps, companion rows and the event mirror. */
module ReplayAudit {
  import opened Wrappers
  import opened Sorting
  import opened OrderedDict

  /** One event row, as far as the audit looks at it. A missing event type is the empty string. */
  datatype Row = Row(traceId: Option<string>, eventType: string, nodeId: Option<string>)

  /** trace.json: the context node stamp of each step, and the capture methods. */
  datatype RecordFile =
    | NoRecord
    | UnreadableRecord
    | Record(stamps: seq<Option<string>>, captureMethods: seq<string>)

  datatype CompanionFile = NoCompanion | UnreadableCompanion | Companion(rows: seq<Row>)

  datatype Batch = UnreadableBatch | Batch(rows: seq<Row>)

  datatype Mirror = NoMirror | Batches(batches: seq<Batch>)

  datatype TraceDir = TraceDir(slug: string, id: string, record: RecordFile, companion: CompanionFile)

  /** The trace directories in path order, and the event mirror. */
  datatype Bucket = Bucket(isDirectory: bool, dirs: seq<TraceDir>, mirror: Mirror)

  datatype AuditError =
    | NotADirectory
    | NoTraces
    | NoTraceDir
    | AmbiguousTraceId
    | RecordMissing
    | RecordUnreadable
    | CompanionUnreadable
    | MirrorMissing
    | BatchUnreadable

  datatype Status = Consistent | LegitimatelyEmpty | Inconsistent

  datatype Reason =
    | Dangling(count: nat, first: seq<string>)
    | LostCapture
    | StaleProjection(mirrorCount: nat)
    | CountMismatch(companionCount: nat, mirrorCount: nat)

  datatype Verdict = Verdict(
    status: Status,
    ok: bool,
    dangling: seq<string>,
    reasons: seq<Reason>,
    stampedCount: nat,
    companionNodeCount: nat,
    companionEvents: nat,
    mirrorEvents: nat,
    contextCapable: bool
  )

  const CONTEXT_PREFIX := "context_"
  const NODE_EVENT := "context_node_observed"

  predicate IsContext(row: Row) {
    |CONTEXT_PREFIX| <= |row.eventType| && row.eventType[..|CONTEXT_PREFIX|] == CONTEXT_PREFIX
  }

  predicate NamesNode(row: Row) {
    row.eventType == NODE_EVENT && row.nodeId.Some? && row.nodeId.value != ""
  }

  // ----- what the readers extract -----

  function StampedIds(stamps: seq<Option<string>>): seq<string> {
    if stamps == [] then [] else
      var n := |stamps| - 1;
      StampedIds(stamps[..n]) + if stamps[n].Some? && stamps[n].value != "" then [stamps[n].value] else []
  }

  /** Every stamp that is present and not empty counts once, in order. */
  lemma {:induction false} StampedCount(stamps: seq<Option<string>>)
    ensures |StampedIds(stamps)| == |set i | 0 <= i < |stamps| && stamps[i] !in {None, Some("")}|
    ensures forall i :: 0 <= i < |StampedIds(stamps)| ==> StampedIds(stamps)[i] != ""
  {
    var all := set i | 0 <= i < |stamps| && stamps[i] !in {None, Some("")};
    if stamps == [] {
      assert all == {};
    } else {
      var n := |stamps| - 1;
      StampedCount(stamps[..n]);
      assert stamps[n] !in {None, Some("")} <==> stamps[n].Some? && stamps[n].value != "";
      assert all == (set i | 0 <= i < n && stamps[..n][i] !in {None, Some("")})
                    + if stamps[n].Some? && stamps[n].value != "" then {n} else {};
    }
  }

  function NodeIds(rows: seq<Row>): set<string> {
    set i | 0 <= i < |rows| && NamesNode(rows[i]) :: rows[i].nodeId.value
  }

  function CountWhere(p: Row -> bool, rows: seq<Row>): nat {
    if rows == [] then 0 else
      var n := |rows| - 1;
      CountWhere(p, rows[..n]) + if p(rows[n]) then 1 else 0
  }

  lemma {:induction false} CountWhereIsSize(p: Row -> bool, rows: seq<Row>)
    ensures CountWhere(p, rows) == |set i | 0 <= i < |rows| && p(rows[i])|
  {
    var all := set i | 0 <= i < |rows| && p(rows[i]);
    if rows == [] {
      assert all == {};
    } else {
      var n := |rows| - 1;
      CountWhereIsSize(p, rows[..n]);
      assert all == (set i | 0 <= i < n && p(rows[..n][i])) + if p(rows[n]) then {n} else {};
    }
  }

  function ContextCount(rows: seq<Row>): nat {
    CountWhere(IsContext, rows)
  }

  predicate ConcernsTrace(row: Row, id: string) {
    row.traceId == Some(id) && IsContext(row)
  }

  function Concerning(id: string): Row -> bool {
    row => ConcernsTrace(row, id)
  }

  function MirrorCount(rows: seq<Row>, id: string): nat {
    CountWhere(Concerning(id), rows)
  }

  lemma StartsWithContext(row: Row)
    ensures IsContext(row) <==> "context_" <= row.eventType
  {
  }

  /** Context events are those whose type starts with "context_". */
  lemma ContextCountIs(rows: seq<Row>)
    ensures ContextCount(rows) == |set i | 0 <= i < |rows| && "context_" <= rows[i].eventType|
  {
    var p: Row -> bool := IsContext;
    CountWhereIsSize(p, rows);
    var counted := set i | 0 <= i < |rows| && p(rows[i]);
    var named := set i | 0 <= i < |rows| && "context_" <= rows[i].eventType;
    forall i | 0 <= i < |rows| ensures i in counted <==> i in named {
      StartsWithContext(rows[i]);
    }
    assert counted == named;
  }

  /** The mirror's context events of one trace. */
  lemma MirrorCountIs(rows: seq<Row>, id: string)
    ensures MirrorCount(rows, id)
         == |set i | 0 <= i < |rows| && rows[i].traceId == Some(id) && "context_" <= rows[i].eventType|
  {
    CountWhereIsSize(Concerning(id), rows);
    var counted := set i | 0 <= i < |rows| && Concerning(id)(rows[i]);
    var named := set i | 0 <= i < |rows| && rows[i].traceId == Some(id) && "context_" <= rows[i].eventType;
    forall i | 0 <= i < |rows| ensures i in counted <==> i in named {
      StartsWithContext(rows[i]);
    }
    assert counted == named;
  }

  /** The node ids are those that rows of type "context_node_observed" name. */
  lemma NodeIdsAre(rows: seq<Row>, id: string)
    ensures id in NodeIds(rows) <==>
              && id != ""
              && exists i :: && 0 <= i < |rows| && rows[i].eventType == "context_node_observed"
                             && rows[i].nodeId == Some(id)
  {
    if i :| 0 <= i < |rows| && rows[i].eventType == "context_node_observed" && rows[i].nodeId == Some(id) && id != "" {
      assert NamesNode(rows[i]);
    }
  }

  predicate AllReadable(batches: seq<Batch>) {
    forall i :: 0 <= i < |batches| ==> batches[i].Batch?
  }

  function AllRows(batches: seq<Batch>): seq<Row>
    requires AllReadable(batches)
  {
    if batches == [] then [] else AllRows(batches[..|batches| - 1]) + batches[|batches| - 1].rows
  }

  /** The rows of the companion; a missing companion is an empty one. */
  function CompanionRows(c: CompanionFile): seq<Row>
    requires !c.UnreadableCompanion?
  {
    if c.Companion? then c.rows else []
  }

  method CompanionSignals(c: CompanionFile) returns (r: Result<(set<string>, nat), AuditError>)
    ensures c.UnreadableCompanion? ==> r == Failure(CompanionUnreadable)
    ensures !c.UnreadableCompanion? ==> r == Success((NodeIds(CompanionRows(c)), ContextCount(CompanionRows(c))))
  {
    if c.NoCompanion? {
      assert NodeIds([]) == {};
      return Success(({}, 0));
    }
    if c.UnreadableCompanion? {
      return Failure(CompanionUnreadable);
    }
    var nodeIds: set<string> := {};
    var contextEvents: nat := 0;
    for i := 0 to |c.rows|
      invariant nodeIds == NodeIds(c.rows[..i])
      invariant contextEvents == ContextCount(c.rows[..i])
    {
      var row := c.rows[i];
      assert c.rows[..i + 1] == c.rows[..i] + [row];
      NodeIdsAppend(c.rows[..i], row);
      if IsContext(row) {
        contextEvents := contextEvents + 1;
      }
      if row.eventType == NODE_EVENT {
        if row.nodeId.Some? && row.nodeId.value != "" {
          nodeIds := nodeIds + {row.nodeId.value};
        }
      }
    }
    assert c.rows[..|c.rows|] == c.rows;
    r := Success((nodeIds, contextEvents));
  }

  lemma NodeIdsAppend(rows: seq<Row>, row: Row)
    ensures NodeIds(rows + [row]) == NodeIds(rows) + if NamesNode(row) then {row.nodeId.value} else {}
  {
    var all := rows + [row];
    forall id | id in NodeIds(rows) ensures id in NodeIds(all) {
      var i :| 0 <= i < |rows| && NamesNode(rows[i]) && rows[i].nodeId.value == id;
      assert all[i] == rows[i];
    }
    assert all[|rows|] == row;
  }

  method MirrorContextCount(mirror: Mirror, id: string) returns (r: Result<nat, AuditError>)
    ensures mirror.NoMirror? ==> r == Failure(MirrorMissing)
    ensures mirror.Batches? && !AllReadable(mirror.batches) ==> r == Failure(BatchUnreadable)
    ensures mirror.Batches? && AllReadable(mirror.batches) ==> r == Success(MirrorCount(AllRows(mirror.batches), id))
  {
    if mirror.NoMirror? {
      return Failure(MirrorMissing);
    }
    var count: nat := 0;
    for b := 0 to |mirror.batches|
      invariant AllReadable(mirror.batches[..b])
      invariant count == MirrorCount(AllRows(mirror.batches[..b]), id)
    {
      if mirror.batches[b].UnreadableBatch? {
        return Failure(BatchUnreadable);
      }
      count := CountBatch(AllRows(mirror.batches[..b]), mirror.batches[b].rows, id, count);
      assert mirror.batches[..b + 1][..b] == mirror.batches[..b];
    }
    assert mirror.batches[..|mirror.batches|] == mirror.batches;
    r := Success(count);
  }

  /** The inner loop: one batch on top of the rows counted before. */
  method CountBatch(ghost earlier: seq<Row>, rows: seq<Row>, id: string, before: nat) returns (count: nat)
    requires before == MirrorCount(earlier, id)
    ensures count == MirrorCount(earlier + rows, id)
  {
    count := before;
    assert earlier + rows[..0] == earlier;
    for i := 0 to |rows|
      invariant count == MirrorCount(earlier + rows[..i], id)
    {
      assert (earlier + rows[..i + 1])[..|earlier| + i] == earlier + rows[..i];
      if rows[i].traceId == Some(id) {
        if IsContext(rows[i]) {
          count := count + 1;
        }
      }
    }
    assert rows[..|rows|] == rows;
  }

  // ----- the classification -----

  function Without(ids: seq<string>, known: set<string>): seq<string> {
    if ids == [] then [] else
      var rest := Without(ids[1..], known);
      if ids[0] in known then rest else [ids[0]] + rest
  }

  /** `sorted(set(stamped) - companion)`. */
  function DanglingIds(stamped: seq<string>, companion: set<string>): seq<string> {
    SortedSet(Without(stamped, companion))
  }

  function NonEmpty(ids: seq<string>): seq<string> {
    if ids == [] then [] else
      NonEmpty(ids[..|ids| - 1]) + if ids[|ids| - 1] != "" then [ids[|ids| - 1]] else []
  }

  function DanglingReason(dangling: seq<string>): Reason {
    Dangling(|dangling|, if |dangling| > 3 then dangling[..3] else dangling)
  }

  /** Every violated invariant, in the order of the checks. */
  function Reasons(dangling: seq<string>, lost: bool, companionEvents: nat, mirrorEvents: nat): seq<Reason> {
    (if dangling != [] then [DanglingReason(dangling)] else [])
    + (if lost then [LostCapture] else [])
    + (if mirrorEvents > 0 && companionEvents == 0 then [StaleProjection(mirrorEvents)]
       else if companionEvents != mirrorEvents then [CountMismatch(companionEvents, mirrorEvents)]
       else [])
  }

  function Classify(stampedIds: seq<string>, nodeIds: set<string>, companionEvents: nat, mirrorEvents: nat,
                    contextCapable: bool): Verdict
  {
    var stamped := NonEmpty(stampedIds);
    var companion := nodeIds - {""};
    var dangling := DanglingIds(stamped, companion);
    var companionEmpty := companion == {} && companionEvents == 0;
    var reasons := Reasons(dangling, contextCapable && companionEmpty, companionEvents, mirrorEvents);
    var status :=
      if reasons != [] then Inconsistent
      else if !contextCapable && companionEmpty && mirrorEvents == 0 && stamped == [] then LegitimatelyEmpty
      else Consistent;
    Verdict(status, status != Inconsistent, dangling, reasons, |stamped|, |companion|, companionEvents, mirrorEvents,
            contextCapable)
  }

  lemma {:induction false} WithoutFacts(ids: seq<string>, known: set<string>)
    ensures forall id :: id in Without(ids, known) <==> id in ids && id !in known
  {
    if ids == [] {
    } else {
      WithoutFacts(ids[1..], known);
      assert ids == [ids[0]] + ids[1..];
    }
  }

  /** The dangling ids are exactly the stamps that the companion does not hold, sorted and without repetition. */
  lemma DanglingIdsFacts(stamped: seq<string>, companion: set<string>)
    ensures StrictlyAscending(DanglingIds(stamped, companion))
    ensures forall id :: id in DanglingIds(stamped, companion) <==> id in stamped && id !in companion
  {
    WithoutFacts(stamped, companion);
    SortedSetFacts(Without(stamped, companion));
  }

  lemma NothingDangles(stamped: seq<string>, companion: set<string>)
    ensures DanglingIds(stamped, companion) == [] <==> forall id :: id in stamped ==> id in companion
  {
    DanglingIdsFacts(stamped, companion);
    if DanglingIds(stamped, companion) != [] {
      assert DanglingIds(stamped, companion)[0] in DanglingIds(stamped, companion);
    }
  }

  lemma {:induction false} NonEmptyFacts(ids: seq<string>)
    ensures forall id :: id in NonEmpty(ids) <==> id in ids && id != ""
  {
    if ids == [] {
    } else {
      NonEmptyFacts(ids[..|ids| - 1]);
      assert ids == ids[..|ids| - 1] + [ids[|ids| - 1]];
    }
  }

  /** The positions of the ids that are not empty. */
  ghost function NonEmptyAt(ids: seq<string>): set<int> {
    set i | 0 <= i < |ids| && ids[i] != ""
  }

  lemma NonEmptyAtGrows(ids: seq<string>)
    requires ids != []
    ensures var n := |ids| - 1;
            && n !in NonEmptyAt(ids[..n])
            && NonEmptyAt(ids) == NonEmptyAt(ids[..n]) + if ids[n] != "" then {n} else {}
  {
  }

  lemma {:induction false} NonEmptyCount(ids: seq<string>)
    ensures |NonEmpty(ids)| == |NonEmptyAt(ids)|
  {
    if ids == [] {
    } else {
      NonEmptyCount(ids[..|ids| - 1]);
      NonEmptyAtGrows(ids);
    }
  }

  /** The reason for dangling stamps tells their number and the first three of them. */
  lemma DanglingReasonTells(dangling: seq<string>)
    ensures DanglingReason(dangling).count == |dangling|
    ensures var first := DanglingReason(dangling).first;
            first <= dangling && |first| == if |dangling| > 3 then 3 else |dangling|
  {
  }

  lemma NoneLeft(ids: seq<string>)
    ensures NonEmpty(ids) == [] <==> forall id :: id in ids ==> id == ""
  {
    NonEmptyFacts(ids);
    if NonEmpty(ids) != [] {
      assert NonEmpty(ids)[0] in NonEmpty(ids);
    }
  }

  /** On bare signals a verdict is ok exactly when stamps resolve, counts agree and a capable trace has something. */
  lemma ClassifyOk(stamped: seq<string>, nodes: set<string>, companionEvents: nat, mirrorEvents: nat, capable: bool)
    ensures var v := Classify(stamped, nodes, companionEvents, mirrorEvents, capable);
            && (v.ok <==> && (forall id :: id in NonEmpty(stamped) ==> id in nodes)
                          && companionEvents == mirrorEvents
                          && (capable ==> nodes - {""} != {} || companionEvents > 0))
            && (v.ok <==> v.status != Inconsistent)
            && (v.status == LegitimatelyEmpty <==>
                  v.ok && !capable && nodes - {""} == {} && companionEvents == 0 && NonEmpty(stamped) == [])
  {
    NothingDangles(NonEmpty(stamped), nodes - {""});
    NonEmptyFacts(stamped);
  }

  /** Which reasons are given. */
  lemma ReasonsFacts(dangling: seq<string>, lost: bool, companionEvents: nat, mirrorEvents: nat)
    ensures var reasons := Reasons(dangling, lost, companionEvents, mirrorEvents);
            && (DanglingReason(dangling) in reasons <==> dangling != [])
            && (LostCapture in reasons <==> lost)
            && (StaleProjection(mirrorEvents) in reasons <==> companionEvents == 0 < mirrorEvents)
            && (CountMismatch(companionEvents, mirrorEvents) in reasons <==> 0 < companionEvents != mirrorEvents)
            && (reasons == [] <==> dangling == [] && !lost && companionEvents == mirrorEvents)
  {
    var dangled := if dangling != [] then [DanglingReason(dangling)] else [];
    var forgotten := if lost then [LostCapture] else [];
    var counted := if mirrorEvents > 0 && companionEvents == 0 then [StaleProjection(mirrorEvents)]
                   else if companionEvents != mirrorEvents then [CountMismatch(companionEvents, mirrorEvents)] else [];
    assert Reasons(dangling, lost, companionEvents, mirrorEvents) == dangled + forgotten + counted;
  }

  /** The part of `classify_trace` that appends reasons. */
  method CollectReasons(dangling: seq<string>, lost: bool, companionEvents: nat, mirrorEvents: nat)
    returns (reasons: seq<Reason>)
    ensures reasons == Reasons(dangling, lost, companionEvents, mirrorEvents)
    ensures reasons == [] <==> dangling == [] && !lost && companionEvents == mirrorEvents
    ensures DanglingReason(dangling) in reasons <==> dangling != []
    ensures LostCapture in reasons <==> lost
    ensures StaleProjection(mirrorEvents) in reasons <==> companionEvents == 0 < mirrorEvents
    ensures CountMismatch(companionEvents, mirrorEvents) in reasons <==> 0 < companionEvents != mirrorEvents
  {
    ReasonsFacts(dangling, lost, companionEvents, mirrorEvents);
    reasons := [];
    if dangling != [] {
      reasons := reasons + [DanglingReason(dangling)];
    }
    if lost {
      reasons := reasons + [LostCapture];
    }
    if mirrorEvents > 0 && companionEvents == 0 {
      reasons := reasons + [StaleProjection(mirrorEvents)];
    } else if companionEvents != mirrorEvents {
      reasons := reasons + [CountMismatch(companionEvents, mirrorEvents)];
    }
  }

  /**
   The trace passes exactly when every stamp is a known node, the counts agree and a context-capable trace has
   something. The dangling ids and the reasons say what is wrong otherwise.
   */
  method ClassifyTrace(stampedIds: seq<string>, nodeIds: set<string>, companionEvents: nat, mirrorEvents: nat,
                       contextCapable: bool)
    returns (v: Verdict)
    ensures v == Classify(stampedIds, nodeIds, companionEvents, mirrorEvents, contextCapable)
    ensures v.ok <==> && (forall id :: id in stampedIds && id != "" ==> id in nodeIds)
                      && companionEvents == mirrorEvents
                      && (contextCapable ==> nodeIds - {""} != {} || companionEvents > 0)
    ensures v.ok <==> v.status != Inconsistent
    ensures v.ok <==> v.reasons == []
    ensures v.status == LegitimatelyEmpty <==>
              && v.ok && !contextCapable && nodeIds - {""} == {} && companionEvents == 0
              && forall id :: id in stampedIds ==> id == ""
    ensures v.stampedCount == |NonEmptyAt(stampedIds)|
    ensures v.companionNodeCount == |nodeIds - {""}|
    ensures v.companionEvents == companionEvents && v.mirrorEvents == mirrorEvents
    ensures v.contextCapable == contextCapable
    ensures StrictlyAscending(v.dangling)
    ensures forall id :: id in v.dangling <==> id in stampedIds && id != "" && id !in nodeIds
  {
    ClassifyOk(stampedIds, nodeIds, companionEvents, mirrorEvents, contextCapable);
    DanglingIdsFacts(NonEmpty(stampedIds), nodeIds - {""});
    NonEmptyFacts(stampedIds);
    NoneLeft(stampedIds);
    NonEmptyCount(stampedIds);
    var stamped := NonEmpty(stampedIds);
    var companion := nodeIds - {""};
    var dangling := DanglingIds(stamped, companion);
    var companionEmpty := |companion| == 0 && companionEvents == 0;
    var reasons := CollectReasons(dangling, contextCapable && companionEmpty, companionEvents, mirrorEvents);
    var status, ok := Consistent, true;
    if reasons != [] {
      status, ok := Inconsistent, false;
    } else if !contextCapable && companionEmpty && mirrorEvents == 0 && stamped == [] {
      status, ok := LegitimatelyEmpty, true;
    }
    v := Verdict(status, ok, dangling, reasons, |stamped|, |companion|, companionEvents, mirrorEvents, contextCapable);
  }

  // ----- one trace -----

  /** The positions of the directories with this id. */
  function Matches(dirs: seq<TraceDir>, id: string): (r: seq<nat>)
    ensures forall i :: 0 <= i < |r| ==> r[i] < |dirs| && dirs[r[i]].id == id
  {
    if dirs == [] then [] else
      var n := |dirs| - 1;
      Matches(dirs[..n], id) + if dirs[n].id == id then [n] else []
  }

  function Resolve(dirs: seq<TraceDir>, id: string): (r: Result<nat, AuditError>)
    ensures r.Success? ==> r.value < |dirs| && dirs[r.value].id == id
  {
    var m := Matches(dirs, id);
    if m == [] then Failure(NoTraceDir) else if |m| > 1 then Failure(AmbiguousTraceId) else Success(m[0])
  }

  /** The classification of what the readers extract. */
  function VerdictOfRows(stamps: seq<Option<string>>, rows: seq<Row>, mirrored: nat, capable: bool): Verdict {
    Classify(StampedIds(stamps), NodeIds(rows), ContextCount(rows), mirrored, capable)
  }

  /** The verdict over the rows of one directory and of the mirror. */
  function VerdictOf(dir: TraceDir, mirror: Mirror): Result<Verdict, AuditError> {
    if dir.record.NoRecord? then Failure(RecordMissing)
    else if dir.record.UnreadableRecord? then Failure(RecordUnreadable)
    else if dir.companion.UnreadableCompanion? then Failure(CompanionUnreadable)
    else if mirror.NoMirror? then Failure(MirrorMissing)
    else if !AllReadable(mirror.batches) then Failure(BatchUnreadable)
    else Success(VerdictOfRows(dir.record.stamps, CompanionRows(dir.companion),
                               MirrorCount(AllRows(mirror.batches), dir.id), dir.record.captureMethods != []))
  }

  function Audit(bucket: Bucket, id: string): Result<Verdict, AuditError> {
    var i :- Resolve(bucket.dirs, id);
    VerdictOf(bucket.dirs[i], bucket.mirror)
  }

  method AuditTrace(bucket: Bucket, id: string) returns (r: Result<Verdict, AuditError>)
    ensures r == Audit(bucket, id) == AuditorOf(bucket)(id)
  {
    var resolved := Resolve(bucket.dirs, id);
    if resolved.Failure? {
      return Failure(resolved.error);
    }
    var dir := bucket.dirs[resolved.value];
    match dir.record
    case NoRecord => return Failure(RecordMissing);
    case UnreadableRecord => return Failure(RecordUnreadable);
    case Record(stamps, captureMethods) =>
      var signals := CompanionSignals(dir.companion);
      if signals.Failure? {
        return Failure(signals.error);
      }
      var mirrorEvents := MirrorContextCount(bucket.mirror, id);
      if mirrorEvents.Failure? {
        return Failure(mirrorEvents.error);
      }
      var v := ClassifyTrace(StampedIds(stamps), signals.value.0, signals.value.1, mirrorEvents.value,
                             captureMethods != []);
      r := Success(v);
  }

  // ----- all traces -----

  /** The positions of the directories that hold a trace.json. */
  function TraceDirs(dirs: seq<TraceDir>): (r: seq<nat>)
    ensures forall i :: 0 <= i < |r| ==> r[i] < |dirs| && !dirs[r[i]].record.NoRecord?
    ensures forall i, j :: 0 <= i < j < |r| ==> r[i] < r[j]
    ensures forall i :: 0 <= i < |dirs| && !dirs[i].record.NoRecord? ==> i in r
  {
    if dirs == [] then [] else
      var n := |dirs| - 1;
      TraceDirs(dirs[..n]) + if dirs[n].record.NoRecord? then [] else [n]
  }

  function AllTraceIds(dirs: seq<TraceDir>): (ids: seq<string>)
    ensures |ids| == |TraceDirs(dirs)|
    ensures forall i :: 0 <= i < |ids| ==> ids[i] == dirs[TraceDirs(dirs)[i]].id
  {
    seq(|TraceDirs(dirs)|, i requires 0 <= i < |TraceDirs(dirs)| => dirs[TraceDirs(dirs)[i]].id)
  }

  type Auditor = string -> Result<Verdict, AuditError>

  function AuditorOf(bucket: Bucket): Auditor {
    id => Audit(bucket, id)
  }

  function AuditAll(audit: Auditor, ids: seq<string>): Result<Dict<string, Verdict>, AuditError> {
    if ids == [] then Success([]) else
      var n := |ids| - 1;
      var earlier :- AuditAll(audit, ids[..n]);
      var v :- audit(ids[n]);
      Success(Put(earlier, ids[n], v))
  }

  lemma AuditAllStep(audit: Auditor, ids: seq<string>, i: nat)
    requires i < |ids| && AuditAll(audit, ids[..i]).Success?
    ensures AuditAll(audit, ids[..i + 1])
         == match audit(ids[i])
            case Failure(e) => Failure(e)
            case Success(v) => Success(Put(AuditAll(audit, ids[..i]).value, ids[i], v))
  {
    assert ids[..i + 1][..i] == ids[..i];
  }

  lemma {:induction false} AuditAllFailsEarly(audit: Auditor, ids: seq<string>, i: nat)
    requires i <= |ids| && AuditAll(audit, ids[..i]).Failure?
    ensures AuditAll(audit, ids) == AuditAll(audit, ids[..i])
  {
    if i == |ids| {
      assert ids[..i] == ids;
    } else {
      var n := |ids| - 1;
      assert ids[..n][..i] == ids[..i];
      AuditAllFailsEarly(audit, ids[..n], i);
    }
  }

  datatype Counts = Counts(consistent: nat, legitimatelyEmpty: nat, inconsistent: nat)

  function CountOf(results: Dict<string, Verdict>, status: Status): nat {
    if results == [] then 0 else
      CountOf(results[..|results| - 1], status) + if results[|results| - 1].1.status == status then 1 else 0
  }

  datatype Report =
    | Blocked(error: AuditError)
    | Audited(counts: Counts, results: Dict<string, Verdict>)

  const EXIT_OK := 0
  const EXIT_INCONSISTENT := 7
  const EXIT_BLOCKED := 2

  /** The ids that a run looks at: the one asked for, or every trace directory's. */
  function RequestedIds(bucket: Bucket, traceId: Option<string>): seq<string> {
    if traceId.Some? && traceId.value != "" then [traceId.value] else AllTraceIds(bucket.dirs)
  }

  /** The results of a run that is not blocked. */
  function Results(bucket: Bucket, traceId: Option<string>): Result<Dict<string, Verdict>, AuditError> {
    if !bucket.isDirectory then Failure(NotADirectory)
    else if RequestedIds(bucket, traceId) == [] then Failure(NoTraces)
    else AuditAll(AuditorOf(bucket), RequestedIds(bucket, traceId))
  }

  /** A count is the number of results with that status. */
  lemma {:induction false} CountIsSize(results: Dict<string, Verdict>, status: Status)
    ensures CountOf(results, status) == |WithStatus(results, status)|
  {
    if results == [] {
    } else {
      CountIsSize(results[..|results| - 1], status);
      WithStatusGrows(results, status);
    }
  }

  /** The positions of the results with this status. */
  ghost function WithStatus(results: Dict<string, Verdict>, status: Status): set<int> {
    set k | 0 <= k < |results| && results[k].1.status == status
  }

  lemma WithStatusGrows(results: Dict<string, Verdict>, status: Status)
    requires results != []
    ensures var n := |results| - 1;
            && n !in WithStatus(results[..n], status)
            && WithStatus(results, status)
               == WithStatus(results[..n], status) + if results[n].1.status == status then {n} else {}
  {
  }

  lemma {:induction false} CountsAddUp(results: Dict<string, Verdict>)
    ensures CountOf(results, Consistent) + CountOf(results, LegitimatelyEmpty) + CountOf(results, Inconsistent)
         == |results|
    ensures CountOf(results, Inconsistent) == 0
       <==> forall k :: 0 <= k < |results| ==> results[k].1.status != Inconsistent
  {
    if results == [] {
    } else {
      var n := |results| - 1;
      CountsAddUp(results[..n]);
      assert forall k :: 0 <= k < n ==> results[..n][k] == results[k];
    }
  }

  ghost predicate OkMeansNotInconsistent(v: Verdict) {
    v.ok <==> v.status != Inconsistent
  }

  lemma {:induction false} ResultsAreVerdicts(audit: Auditor, ids: seq<string>)
    requires forall id :: audit(id).Success? ==> OkMeansNotInconsistent(audit(id).value)
    requires AuditAll(audit, ids).Success?
    ensures var results := AuditAll(audit, ids).value;
            forall k :: 0 <= k < |results| ==> OkMeansNotInconsistent(results[k].1)
  {
    if ids == [] {
    } else {
      var n := |ids| - 1;
      ResultsAreVerdicts(audit, ids[..n]);
      PutAt(AuditAll(audit, ids[..n]).value, ids[n], audit(ids[n]).value);
    }
  }

  /** No result is counted as inconsistent exactly when all are ok. */
  lemma AllOkIffNoneInconsistent(bucket: Bucket, traceId: Option<string>)
    requires Results(bucket, traceId).Success?
    ensures var results := Results(bucket, traceId).value;
            CountOf(results, Inconsistent) == 0 <==> forall k :: 0 <= k < |results| ==> results[k].1.ok
  {
    var results := Results(bucket, traceId).value;
    ResultsAreVerdicts(AuditorOf(bucket), RequestedIds(bucket, traceId));
    CountsAddUp(results);
    assert forall k :: 0 <= k < |results| ==> OkMeansNotInconsistent(results[k].1);
  }

  method CountStatuses(results: Dict<string, Verdict>) returns (counts: Counts)
    ensures counts
         == Counts(CountOf(results, Consistent), CountOf(results, LegitimatelyEmpty), CountOf(results, Inconsistent))
  {
    counts := Counts(0, 0, 0);
    for i := 0 to |results|
      invariant counts == Counts(CountOf(results[..i], Consistent), CountOf(results[..i], LegitimatelyEmpty),
                                 CountOf(results[..i], Inconsistent))
    {
      assert results[..i + 1][..i] == results[..i];
      match results[i].1.status
      case Consistent => counts := counts.(consistent := counts.consistent + 1);
      case LegitimatelyEmpty => counts := counts.(legitimatelyEmpty := counts.legitimatelyEmpty + 1);
      case Inconsistent => counts := counts.(inconsistent := counts.inconsistent + 1);
    }
    assert results[..|results|] == results;
  }

  method AuditEach(bucket: Bucket, ids: seq<string>) returns (r: Result<Dict<string, Verdict>, AuditError>)
    ensures r == AuditAll(AuditorOf(bucket), ids)
  {
    var results: Dict<string, Verdict> := [];
    for i := 0 to |ids|
      invariant AuditAll(AuditorOf(bucket), ids[..i]) == Success(results)
    {
      AuditAllStep(AuditorOf(bucket), ids, i);
      var v := AuditTrace(bucket, ids[i]);
      if v.Failure? {
        AuditAllFailsEarly(AuditorOf(bucket), ids, i + 1);
        return Failure(v.error);
      }
      results := Put(results, ids[i], v.value);
    }
    assert ids[..|ids|] == ids;
    r := Success(results);
  }

  method RunAudit(bucket: Bucket, traceId: Option<string>) returns (exit: int, report: Report)
    ensures Results(bucket, traceId).Failure? ==>
              exit == EXIT_BLOCKED && report == Blocked(Results(bucket, traceId).error)
    ensures Results(bucket, traceId).Success? ==>
              var results := Results(bucket, traceId).value;
              && report == Audited(Counts(CountOf(results, Consistent), CountOf(results, LegitimatelyEmpty),
                                          CountOf(results, Inconsistent)), results)
              && exit == if CountOf(results, Inconsistent) == 0 then EXIT_OK else EXIT_INCONSISTENT
    ensures exit == 2 <==> Results(bucket, traceId).Failure?
    ensures exit == 0 <==> && Results(bucket, traceId).Success?
                           && forall k :: 0 <= k < |Results(bucket, traceId).value| ==>
                                Results(bucket, traceId).value[k].1.ok
    ensures exit in {0, 2, 7}
  {
    if Results(bucket, traceId).Success? {
      AllOkIffNoneInconsistent(bucket, traceId);
    }
    if !bucket.isDirectory {
      return EXIT_BLOCKED, Blocked(NotADirectory);
    }
    var ids := RequestedIds(bucket, traceId);
    if ids == [] {
      return EXIT_BLOCKED, Blocked(NoTraces);
    }
    var results := AuditEach(bucket, ids);
    if results.Failure? {
      return EXIT_BLOCKED, Blocked(results.error);
    }
    var counts := CountStatuses(results.value);
    return (if counts.inconsistent == 0 then EXIT_OK else EXIT_INCONSISTENT), Audited(counts, results.value);
  }
}
