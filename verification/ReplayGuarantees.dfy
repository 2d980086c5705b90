/** What a verdict of the replay-completeness audit means for the rows it was computed from. */
module ReplayGuarantees {
  import opened Wrappers
  import opened Sorting
  import opened OrderedDict
  import opened ReplayAudit

  // ----- the classification on extracted signals -----

  /**
   The classification alone lets a trace with no context event pass as consistent if and only if it is handed a
   node id without an event; the guard therefore rests on how the signals are extracted.
   */
  lemma VacuousGreenOnBareSignals(stamped: seq<string>, nodes: set<string>, companionEvents: nat, mirrorEvents: nat,
                                  capable: bool)
    requires companionEvents == 0
    ensures Classify(stamped, nodes, companionEvents, mirrorEvents, capable).status == Consistent
       <==> && nodes - {""} != {} && mirrorEvents == 0
            && forall id :: id in NonEmpty(stamped) ==> id in nodes
  {
    ClassifyOk(stamped, nodes, companionEvents, mirrorEvents, capable);
    if nodes - {""} == {} && NonEmpty(stamped) != [] {
      NonEmptyFacts(stamped);
      assert NonEmpty(stamped)[0] in NonEmpty(stamped);
    }
  }

  // ----- the verdict over rows -----

  lemma {:induction false} CountWhereFinds(p: Row -> bool, rows: seq<Row>, i: nat)
    requires i < |rows| && p(rows[i])
    ensures CountWhere(p, rows) > 0
  {
    if i < |rows| - 1 {
      CountWhereFinds(p, rows[..|rows| - 1], i);
    }
  }

  /** A node event is a context event, so a companion with a node id has a context event. */
  lemma NodesAreContextEvents(rows: seq<Row>)
    ensures NodeIds(rows) - {""} != {} ==> ContextCount(rows) > 0
    ensures "" !in NodeIds(rows)
  {
    if NodeIds(rows) - {""} != {} {
      var id :| id in NodeIds(rows) - {""};
      var i :| 0 <= i < |rows| && NamesNode(rows[i]) && rows[i].nodeId.value == id;
      CountWhereFinds(IsContext, rows, i);
    }
  }

  lemma {:induction false} StampedIdsFacts(stamps: seq<Option<string>>)
    ensures forall id :: id in StampedIds(stamps) <==> id != "" && Some(id) in stamps
  {
    if stamps == [] {
    } else {
      var n := |stamps| - 1;
      StampedIdsFacts(stamps[..n]);
      assert stamps == stamps[..n] + [stamps[n]];
    }
  }

  lemma {:induction false} NonEmptyKeeps(ids: seq<string>)
    requires forall i :: 0 <= i < |ids| ==> ids[i] != ""
    ensures NonEmpty(ids) == ids
  {
    if ids == [] {
    } else {
      NonEmptyKeeps(ids[..|ids| - 1]);
    }
  }

  /** Every stamp on the record's steps names a node that a companion row of this trace observed. */
  ghost predicate StampsResolve(stamps: seq<Option<string>>, rows: seq<Row>) {
    forall id :: id != "" && Some(id) in stamps ==>
      exists i :: 0 <= i < |rows| && rows[i].eventType == NODE_EVENT && rows[i].nodeId == Some(id)
  }

  lemma StampsResolveInNodes(stamps: seq<Option<string>>, rows: seq<Row>)
    ensures StampsResolve(stamps, rows) <==> forall id :: id in StampedIds(stamps) ==> id in NodeIds(rows)
  {
    StampedIdsFacts(stamps);
    forall id | id != "" ensures id in NodeIds(rows)
        <==> exists i :: 0 <= i < |rows| && rows[i].eventType == NODE_EVENT && rows[i].nodeId == Some(id)
    {
      if i :| 0 <= i < |rows| && rows[i].eventType == NODE_EVENT && rows[i].nodeId == Some(id) {
        assert NamesNode(rows[i]);
      }
    }
  }

  ghost predicate Readable(dir: TraceDir, mirror: Mirror) {
    && dir.record.Record? && !dir.companion.UnreadableCompanion?
    && mirror.Batches? && AllReadable(mirror.batches)
  }

  lemma VerdictOfRowsMeans(stamps: seq<Option<string>>, rows: seq<Row>, mirrored: nat, capable: bool)
    ensures var v := VerdictOfRows(stamps, rows, mirrored, capable);
            && (v.ok <==> && StampsResolve(stamps, rows)
                          && ContextCount(rows) == mirrored
                          && (capable ==> ContextCount(rows) > 0))
            && (v.ok <==> v.status != Inconsistent)
            && (v.status == Consistent <==> v.ok && ContextCount(rows) > 0 && mirrored > 0)
            && (v.status == LegitimatelyEmpty <==> v.ok && ContextCount(rows) == 0 && mirrored == 0)
  {
    var stamped := StampedIds(stamps);
    StampedIdsFacts(stamps);
    assert forall i :: 0 <= i < |stamped| ==> stamped[i] in stamped;
    NonEmptyKeeps(stamped);
    StampsResolveInNodes(stamps, rows);
    NodesAreContextEvents(rows);
    ClassifyOk(stamped, NodeIds(rows), ContextCount(rows), mirrored, capable);
    if stamped != [] {
      assert stamped[0] in stamped;
    }
  }

  /**
   The verdict over all rows: ok exactly when every stamp resolves in the companion, companion and mirror hold
   equally many context events, and a context-capable trace has at least one. A consistent trace has context
   events on both sides, and an ok trace without events is legitimately empty.
   */
  lemma VerdictMeansComplete(dir: TraceDir, mirror: Mirror)
    requires Readable(dir, mirror)
    ensures VerdictOf(dir, mirror).Success?
    ensures var v := VerdictOf(dir, mirror).value;
            var rows, mirrored := CompanionRows(dir.companion), MirrorCount(AllRows(mirror.batches), dir.id);
            && (v.ok <==> && StampsResolve(dir.record.stamps, rows)
                          && ContextCount(rows) == mirrored
                          && (dir.record.captureMethods != [] ==> ContextCount(rows) > 0))
            && (v.ok <==> v.status != Inconsistent)
            && (v.status == Consistent <==> v.ok && ContextCount(rows) > 0 && mirrored > 0)
            && (v.status == LegitimatelyEmpty <==> v.ok && ContextCount(rows) == 0 && mirrored == 0)
  {
    VerdictOfRowsMeans(dir.record.stamps, CompanionRows(dir.companion), MirrorCount(AllRows(mirror.batches), dir.id),
                       dir.record.captureMethods != []);
  }

  // ----- counts depend on the multiset of rows only -----

  lemma {:induction false} CountWhereConcat(p: Row -> bool, s: seq<Row>, t: seq<Row>)
    ensures CountWhere(p, s + t) == CountWhere(p, s) + CountWhere(p, t)
  {
    if t == [] {
      assert s + t == s;
    } else {
      var n := |t| - 1;
      CountWhereConcat(p, s, t[..n]);
      assert (s + t)[..|s| + n] == s + t[..n];
    }
  }

  lemma CountWhereOne(p: Row -> bool, row: Row)
    ensures CountWhere(p, [row]) == if p(row) then 1 else 0
  {
    assert [row][..0] == [];
  }

  lemma SplitAround(rows: seq<Row>, i: nat)
    requires i < |rows|
    ensures rows == rows[..i] + ([rows[i]] + rows[i + 1..])
  {
  }

  lemma CountWhereWithout(p: Row -> bool, rows: seq<Row>, i: nat)
    requires i < |rows|
    ensures CountWhere(p, rows) == CountWhere(p, rows[..i] + rows[i + 1..]) + if p(rows[i]) then 1 else 0
  {
    var before, after := rows[..i], rows[i + 1..];
    SplitAround(rows, i);
    CountWhereConcat(p, before, [rows[i]] + after);
    CountWhereConcat(p, [rows[i]], after);
    CountWhereConcat(p, before, after);
    CountWhereOne(p, rows[i]);
  }

  lemma {:induction false} CountWhereOfMultiset(p: Row -> bool, s: seq<Row>, t: seq<Row>)
    requires multiset(s) == multiset(t)
    ensures CountWhere(p, s) == CountWhere(p, t)
  {
    if s == [] {
      assert |multiset(t)| == |t|;
    } else {
      var i := TakeLast(s, t);
      CountWhereOfMultiset(p, s[..|s| - 1], t[..i] + t[i + 1..]);
      CountWhereWithout(p, t, i);
    }
  }

  /** Splitting the mirror's rows into other batches, or reordering them, changes no trace's audit. */
  lemma MirrorLayoutIsIrrelevant(bucket: Bucket, batches: seq<Batch>, id: string)
    requires bucket.mirror.Batches? && AllReadable(bucket.mirror.batches) && AllReadable(batches)
    requires multiset(AllRows(batches)) == multiset(AllRows(bucket.mirror.batches))
    ensures Audit(bucket.(mirror := Batches(batches)), id) == Audit(bucket, id)
  {
    CountWhereOfMultiset(Concerning(id), AllRows(batches), AllRows(bucket.mirror.batches));
  }

  lemma {:induction false} AuditAllFrame(audit: Auditor, audit': Auditor, ids: seq<string>)
    requires forall id :: audit(id) == audit'(id)
    ensures AuditAll(audit, ids) == AuditAll(audit', ids)
  {
    if ids == [] {
    } else {
      AuditAllFrame(audit, audit', ids[..|ids| - 1]);
    }
  }

  /** In particular it changes no result of a run, and with them neither the report nor the exit code. */
  lemma MirrorLayoutChangesNoReport(bucket: Bucket, batches: seq<Batch>, traceId: Option<string>)
    requires bucket.mirror.Batches? && AllReadable(bucket.mirror.batches) && AllReadable(batches)
    requires multiset(AllRows(batches)) == multiset(AllRows(bucket.mirror.batches))
    ensures Results(bucket.(mirror := Batches(batches)), traceId) == Results(bucket, traceId)
  {
    var other := bucket.(mirror := Batches(batches));
    forall id ensures AuditorOf(other)(id) == AuditorOf(bucket)(id) {
      MirrorLayoutIsIrrelevant(bucket, batches, id);
    }
    AuditAllFrame(AuditorOf(other), AuditorOf(bucket), RequestedIds(bucket, traceId));
  }

  // ----- a companion that lost rows -----

  /** The rows that were lost. */
  lemma {:induction false} Lost(kept: seq<Row>, rows: seq<Row>) returns (lost: seq<Row>)
    requires multiset(kept) <= multiset(rows)
    ensures multiset(kept + lost) == multiset(rows)
  {
    if kept == [] {
      lost := rows;
      assert kept + lost == rows;
    } else {
      var n := |kept| - 1;
      assert kept[n] in multiset(rows);
      var i :| 0 <= i < |rows| && rows[i] == kept[n];
      var rest := rows[..i] + rows[i + 1..];
      RemoveAt(rows, i);
      RemoveAt(kept, n);
      assert kept[..n] + kept[n + 1..] == kept[..n];
      lost := Lost(kept[..n], rest);
      LostStep(kept, lost, rows, i);
    }
  }

  lemma LostStep(kept: seq<Row>, lost: seq<Row>, rows: seq<Row>, i: nat)
    requires kept != [] && i < |rows| && rows[i] == kept[|kept| - 1]
    requires multiset(kept[..|kept| - 1] + lost) == multiset(rows[..i] + rows[i + 1..])
    ensures multiset(kept + lost) == multiset(rows)
  {
    var n := |kept| - 1;
    var all := kept + lost;
    RemoveAt(rows, i);
    RemoveAt(all, n);
    assert all[..n] == kept[..n];
    assert all[n + 1..] == lost;
    assert all[n] == rows[i];
  }

  /** When a context event is among the lost rows, fewer are left. */
  lemma LostRowsCountLess(kept: seq<Row>, rows: seq<Row>, e: Row)
    requires multiset(kept) <= multiset(rows)
    requires IsContext(e) && multiset(kept)[e] < multiset(rows)[e]
    ensures ContextCount(kept) < ContextCount(rows)
  {
    var lost := Lost(kept, rows);
    CountWhereOfMultiset(IsContext, kept + lost, rows);
    CountWhereConcat(IsContext, kept, lost);
    assert multiset(kept + lost)[e] == multiset(kept)[e] + multiset(lost)[e];
    assert e in multiset(lost);
    var i :| 0 <= i < |lost| && lost[i] == e;
    CountWhereFinds(IsContext, lost, i);
  }

  /** Deleting one or more context events from the companion alone turns every ok trace inconsistent. */
  lemma LostEventsAreDetected(dir: TraceDir, mirror: Mirror, kept: seq<Row>, lost: Row)
    requires Readable(dir, mirror)
    requires multiset(kept) <= multiset(CompanionRows(dir.companion))
    requires IsContext(lost) && multiset(kept)[lost] < multiset(CompanionRows(dir.companion))[lost]
    ensures VerdictOf(dir, mirror).Success? && VerdictOf(dir.(companion := Companion(kept)), mirror).Success?
    ensures VerdictOf(dir, mirror).value.ok ==>
              VerdictOf(dir.(companion := Companion(kept)), mirror).value.status == Inconsistent
  {
    VerdictMeansComplete(dir, mirror);
    VerdictMeansComplete(dir.(companion := Companion(kept)), mirror);
    LostRowsCountLess(kept, CompanionRows(dir.companion), lost);
  }

  // ----- a full audit -----

  lemma {:induction false} MatchesFacts(dirs: seq<TraceDir>, id: string)
    ensures forall i :: 0 <= i < |dirs| && dirs[i].id == id ==> i in Matches(dirs, id)
    ensures forall a, b :: 0 <= a < b < |Matches(dirs, id)| ==> Matches(dirs, id)[a] < Matches(dirs, id)[b]
  {
    if dirs == [] {
    } else {
      var n := |dirs| - 1;
      MatchesFacts(dirs[..n], id);
      assert forall i :: 0 <= i < n ==> dirs[..n][i] == dirs[i];
    }
  }

  /** An id resolves exactly when one directory carries it, and then to that directory. */
  lemma ResolveFacts(dirs: seq<TraceDir>, i: nat)
    requires i < |dirs|
    ensures Resolve(dirs, dirs[i].id) == Success(i)
       <==> forall j :: 0 <= j < |dirs| && j != i ==> dirs[j].id != dirs[i].id
    ensures Resolve(dirs, dirs[i].id).Success? ==> Resolve(dirs, dirs[i].id) == Success(i)
  {
    var id := dirs[i].id;
    var m := Matches(dirs, id);
    MatchesFacts(dirs, id);
    assert i in m;
    var a :| 0 <= a < |m| && m[a] == i;
    if j :| 0 <= j < |dirs| && j != i && dirs[j].id == id {
      assert j in m;
    }
    if |m| > 1 {
      var b := if a == 0 then 1 else 0;
      assert m[b] != i && dirs[m[b]].id == id;
    }
  }

  /** What a run with a trace id reports: that trace's verdict alone, or why there is none. */
  lemma RequestedAlone(bucket: Bucket, id: string)
    requires id != "" && bucket.isDirectory
    ensures (forall i :: 0 <= i < |bucket.dirs| ==> bucket.dirs[i].id != id) ==>
              Results(bucket, Some(id)) == Failure(NoTraceDir)
    ensures (exists i, j :: 0 <= i < j < |bucket.dirs| && bucket.dirs[i].id == id == bucket.dirs[j].id) ==>
              Results(bucket, Some(id)) == Failure(AmbiguousTraceId)
    ensures forall i :: OnlyDir(bucket.dirs, i, id) ==>
              Results(bucket, Some(id)) == match VerdictOf(bucket.dirs[i], bucket.mirror)
                                           case Failure(e) => Failure(e)
                                           case Success(v) => Success([(id, v)])
  {
    AuditOfOne(AuditorOf(bucket), id);
    MatchesFacts(bucket.dirs, id);
    var m := Matches(bucket.dirs, id);
    if m != [] {
      assert bucket.dirs[m[0]].id == id;
    }
    if i, j :| 0 <= i < j < |bucket.dirs| && bucket.dirs[i].id == id == bucket.dirs[j].id {
      assert i in m && j in m;
    }
    forall i | OnlyDir(bucket.dirs, i, id) ensures Resolve(bucket.dirs, id) == Success(i) {
      ResolveFacts(bucket.dirs, i);
    }
  }

  ghost predicate OnlyDir(dirs: seq<TraceDir>, i: int, id: string) {
    && 0 <= i < |dirs| && dirs[i].id == id
    && forall j :: 0 <= j < |dirs| && j != i ==> dirs[j].id != id
  }

  lemma AuditOfOne(audit: Auditor, id: string)
    ensures AuditAll(audit, [id]) == match audit(id) case Failure(e) => Failure(e) case Success(v) => Success([(id, v)])
  {
    assert [id][..0] == [];
    var none: Dict<string, Verdict> := [];
    assert AuditAll(audit, [id][..0]) == Success(none);
  }

  /** A run without a trace id, or with an empty one, is a run over all traces; without any it is blocked. */
  lemma RequestedAll(bucket: Bucket)
    ensures Results(bucket, Some("")) == Results(bucket, None)
    ensures !bucket.isDirectory ==> forall traceId :: Results(bucket, traceId) == Failure(NotADirectory)
    ensures bucket.isDirectory && (forall i :: 0 <= i < |bucket.dirs| ==> bucket.dirs[i].record.NoRecord?) ==>
              Results(bucket, None) == Failure(NoTraces)
  {
    if TraceDirs(bucket.dirs) != [] {
      assert !bucket.dirs[TraceDirs(bucket.dirs)[0]].record.NoRecord?;
    }
  }

  lemma {:induction false} AuditAllSucceeds(audit: Auditor, ids: seq<string>)
    ensures AuditAll(audit, ids).Success? <==> forall k :: 0 <= k < |ids| ==> audit(ids[k]).Success?
  {
    if ids == [] {
    } else {
      var n := |ids| - 1;
      AuditAllSucceeds(audit, ids[..n]);
      assert forall k :: 0 <= k < n ==> ids[..n][k] == ids[k];
    }
  }

  ghost predicate Distinct(ids: seq<string>) {
    forall i, j :: 0 <= i < j < |ids| ==> ids[i] != ids[j]
  }

  lemma {:induction false} AuditAllInOrder(audit: Auditor, ids: seq<string>)
    requires AuditAll(audit, ids).Success? && Distinct(ids)
    ensures var results := AuditAll(audit, ids).value;
            && |results| == |ids|
            && forall k :: 0 <= k < |ids| ==> results[k].0 == ids[k] && Success(results[k].1) == audit(ids[k])
  {
    if ids == [] {
    } else {
      var n := |ids| - 1;
      AuditAllInOrder(audit, ids[..n]);
      var earlier := AuditAll(audit, ids[..n]).value;
      GetFinds(earlier, ids[n]);
      assert forall k :: 0 <= k < n ==> earlier[k].0 == ids[..n][k] == ids[k];
      PutNew(earlier, ids[n], audit(ids[n]).value);
    }
  }

  /** What stops a full audit: nothing to audit, a clash of ids, or something unreadable. */
  ghost predicate Auditable(bucket: Bucket) {
    && bucket.isDirectory
    && TraceDirs(bucket.dirs) != []
    && bucket.mirror.Batches? && AllReadable(bucket.mirror.batches)
    && forall k :: 0 <= k < |TraceDirs(bucket.dirs)| ==> DirAuditable(bucket.dirs, TraceDirs(bucket.dirs)[k])
  }

  ghost predicate DirAuditable(dirs: seq<TraceDir>, i: nat)
    requires i < |dirs|
  {
    && dirs[i].record.Record? && !dirs[i].companion.UnreadableCompanion?
    && forall j :: 0 <= j < |dirs| && j != i ==> dirs[j].id != dirs[i].id
  }

  lemma AuditOfDir(bucket: Bucket, i: nat)
    requires i < |bucket.dirs|
    ensures Audit(bucket, bucket.dirs[i].id).Success? <==>
              && DirAuditable(bucket.dirs, i)
              && bucket.mirror.Batches? && AllReadable(bucket.mirror.batches)
    ensures Audit(bucket, bucket.dirs[i].id).Success? ==>
              Audit(bucket, bucket.dirs[i].id) == VerdictOf(bucket.dirs[i], bucket.mirror)
  {
    ResolveFacts(bucket.dirs, i);
  }

  /** A full audit is blocked exactly when the bucket is not auditable: nothing is skipped silently. */
  lemma BlockedIffNotAuditable(bucket: Bucket)
    ensures Results(bucket, None).Success? <==> Auditable(bucket)
  {
    var at, ids := TraceDirs(bucket.dirs), AllTraceIds(bucket.dirs);
    AuditAllSucceeds(AuditorOf(bucket), ids);
    forall k | 0 <= k < |ids|
      ensures Audit(bucket, ids[k]).Success?
         <==> DirAuditable(bucket.dirs, at[k]) && bucket.mirror.Batches? && AllReadable(bucket.mirror.batches)
    {
      AuditOfDir(bucket, at[k]);
    }
    if at != [] && Results(bucket, None).Success? {
      assert Audit(bucket, ids[0]).Success?;
    }
  }

  /** An auditable bucket's full audit visits every trace directory exactly once, under pairwise distinct ids. */
  lemma FullAuditCoversEveryTrace(bucket: Bucket)
    requires Auditable(bucket)
    ensures Results(bucket, None).Success?
    ensures var results, at := Results(bucket, None).value, TraceDirs(bucket.dirs);
            && |results| == |at|
            && (forall k :: 0 <= k < |at| ==>
                  && results[k].0 == bucket.dirs[at[k]].id
                  && Success(results[k].1) == VerdictOf(bucket.dirs[at[k]], bucket.mirror))
            && (forall i, j :: 0 <= i < j < |results| ==> results[i].0 != results[j].0)
  {
    var at, ids := TraceDirs(bucket.dirs), AllTraceIds(bucket.dirs);
    BlockedIffNotAuditable(bucket);
    forall i, j | 0 <= i < j < |ids| ensures ids[i] != ids[j] {
      assert DirAuditable(bucket.dirs, at[i]);
    }
    AuditAllInOrder(AuditorOf(bucket), ids);
    forall k | 0 <= k < |at|
      ensures Success(Results(bucket, None).value[k].1) == VerdictOf(bucket.dirs[at[k]], bucket.mirror)
    {
      AuditOfDir(bucket, at[k]);
    }
  }

  predicate IsOk(r: Result<Verdict, AuditError>) {
    r.Success? && r.value.ok
  }

  /**
   The counts of a full audit add up to the number of trace directories, and no trace is counted as inconsistent,
   which is when the program exits with 0, exactly when every trace is ok.
   */
  lemma FullAuditCounts(bucket: Bucket)
    requires Auditable(bucket)
    ensures Results(bucket, None).Success?
    ensures var results, at := Results(bucket, None).value, TraceDirs(bucket.dirs);
            && CountOf(results, Consistent) + CountOf(results, LegitimatelyEmpty) + CountOf(results, Inconsistent)
               == |at|
            && (CountOf(results, Inconsistent) == 0 <==>
                  forall k :: 0 <= k < |at| ==> IsOk(VerdictOf(bucket.dirs[at[k]], bucket.mirror)))
  {
    FullAuditCoversEveryTrace(bucket);
    var results, at := Results(bucket, None).value, TraceDirs(bucket.dirs);
    CountsAddUp(results);
    forall k | 0 <= k < |at|
      ensures IsOk(VerdictOf(bucket.dirs[at[k]], bucket.mirror)) <==> results[k].1.status != Inconsistent
    {
      assert DirAuditable(bucket.dirs, at[k]);
      OkIsNotInconsistent(bucket.dirs[at[k]], bucket.mirror);
    }
  }

  lemma OkIsNotInconsistent(dir: TraceDir, mirror: Mirror)
    requires Readable(dir, mirror)
    ensures VerdictOf(dir, mirror).Success?
    ensures IsOk(VerdictOf(dir, mirror)) <==> VerdictOf(dir, mirror).value.status != Inconsistent
  {
    VerdictMeansComplete(dir, mirror);
  }
}
