/** The record building of `EstesioCloud` (both copies): the per-limb WHO disability grade,
    the batch of test records written when an evaluation is finalised, and the first name shown
    to the signed-in clinician. The database itself is abstracted away: the signed-in user is a
    parameter, and the batch is returned as the map from document id to record that `EstesioCloud`
    hands to one batch write. */
module Cloud {
  import opened Wrappers
  import opened Text
  import opened Session
  import opened Sets

  /** The error raised when no clinician is signed in. */
  const NotSignedIn: string := "Não logado"

  /** The name shown when the clinician's name is unknown. */
  const DefaultUserName: string := "Doutor(a)"

  /** The level from which a limb without deformities is graded 1. */
  const ProtectiveLossLevel: int := 5

  // ---------------------------------------------------------------------------------------
  // Grading

  /** `m` is the largest element of `s`. */
  predicate IsMaxOf(m: int, s: set<int>) {
    m in s && forall y :: y in s ==> y <= m
  }

  lemma {:induction false} HasMax(s: set<int>)
    requires s != {}
    ensures exists m :: IsMaxOf(m, s)
  {
    NonEmptyInts(s);
    var x :| x in s;
    var rest := s - {x};
    if rest == {} {
      assert s == {x};
      assert IsMaxOf(x, s);
    } else {
      HasMax(rest);
      var m :| IsMaxOf(m, rest);
      assert s == rest + {x};
      if x > m {
        assert IsMaxOf(x, s);
      } else {
        assert IsMaxOf(m, s);
      }
    }
  }

  /** The largest element of a non-empty finite set. */
  function MaxOf(s: set<int>): (m: int)
    requires s != {}
    ensures m in s && forall y :: y in s ==> y <= m
  {
    HasMax(s);
    var m :| IsMaxOf(m, s);
    m
  }

  lemma ValueHasKey(results: PointMap, v: int)
    requires v in results.Values
    ensures exists k :: k in results && results[k] == v
  {
    if forall k :: k in results ==> results[k] != v { assert false; }
  }

  /** `results.values.maxOrNull() ?: 0`: the highest level recorded on the limb, 0 for none. */
  function MaxLevel(results: PointMap): (m: int)
    ensures results == map[] ==> m == 0
    ensures results != map[] ==> exists k :: k in results && results[k] == m
    ensures forall k :: k in results ==> results[k] <= m
  {
    if results == map[] then 0
    else
      NonEmptyIntMap(results);
      var k :| k in results;
      assert results[k] in results.Values;
      assert forall j :: j in results ==> results[j] in results.Values;
      var m := MaxOf(results.Values);
      ValueHasKey(results, m);
      m
  }

  /** The WHO disability grade of one limb: 2 with deformities or ulcers; otherwise 1 when some
      point reached level 5 (loss of protective sensation) and 0 when none did. */
  function LimbGrade(results: PointMap, hasDeformities: bool): (g: int)
    ensures 0 <= g <= 2
    ensures g == 2 <==> hasDeformities
    ensures g == 1 <==> !hasDeformities && exists k :: k in results && results[k] >= ProtectiveLossLevel
    ensures g == 0 <==> !hasDeformities && forall k :: k in results ==> results[k] < ProtectiveLossLevel
  {
    if hasDeformities then 2 else if MaxLevel(results) >= ProtectiveLossLevel then 1 else 0
  }

  /** An empty limb is graded 0 unless deformities are flagged. */
  lemma EmptyLimbGrade(hasDeformities: bool)
    ensures LimbGrade(map[], hasDeformities) == if hasDeformities then 2 else 0
  {
  }

  /** Raising a point's level never lowers the grade. */
  lemma LimbGradeMonotone(results: PointMap, k: int, level: int, hasDeformities: bool)
    requires k in results && results[k] <= level
    ensures LimbGrade(results, hasDeformities) <= LimbGrade(results[k := level], hasDeformities)
  {
    if LimbGrade(results, hasDeformities) == 1 {
      var j :| j in results && results[j] >= ProtectiveLossLevel;
      var after := results[k := level];
      assert j in after && after[j] >= ProtectiveLossLevel;
    }
  }

  // ---------------------------------------------------------------------------------------
  // The test records

  /** One document of the `tests` collection: a limb of one session. */
  datatype TestRecord = TestRecord(
    sessionId: string, patientCpf: string, patientName: string, doctorId: string,
    bodyPart: string, date: int, gif: int, hasDeformities: bool, pointsData: map<string, int>)

  /** The document id `sessionId + "_" + bodyPart`. */
  function TestId(sessionId: string, bodyPart: string): string
  {
    sessionId + "_" + bodyPart
  }

  /** The id starts with the session id and an underscore, and the limb is the rest. */
  lemma TestIdParts(sessionId: string, bodyPart: string)
    ensures var id := TestId(sessionId, bodyPart);
      |id| == |sessionId| + 1 + |bodyPart| && id[..|sessionId|] == sessionId && id[|sessionId|] == '_'
      && id[|sessionId| + 1..] == bodyPart
  {
  }

  /** Within one session, distinct limbs get distinct document ids. */
  lemma TestIdInjective(sessionId: string, a: string, b: string)
    requires TestId(sessionId, a) == TestId(sessionId, b)
    ensures a == b
  {
    TestIdParts(sessionId, a);
    TestIdParts(sessionId, b);
  }

  /** The limb's point map with each point index written as decimal text. */
  function PointsData(results: PointMap): (d: map<string, int>)
    ensures forall k :: k in results ==> IntToString(k) in d && d[IntToString(k)] == results[k]
    ensures forall s :: s in d ==> exists k :: k in results && IntToString(k) == s
  {
    forall a, b | a in results && b in results && IntToString(a) == IntToString(b) ensures a == b {
      IntToStringInjective(a, b);
    }
    map k | k in results :: IntToString(k) := results[k]
  }

  /** Reading the keys of `pointsData` back as integers gives the limb's point map again. */
  lemma PointsDataRoundTrip(results: PointMap)
    requires forall k :: k in results ==> IntMin <= k <= IntMax
    ensures forall s :: s in PointsData(results) ==>
      ParseInt(s).Some? && ParseInt(s).value in results && results[ParseInt(s).value] == PointsData(results)[s]
    ensures |PointsData(results)| == |results|
  {
    var d := PointsData(results);
    forall s | s in d
      ensures ParseInt(s).Some? && ParseInt(s).value in results && results[ParseInt(s).value] == d[s]
    {
      var k :| k in results && IntToString(k) == s;
    }
    assert d.Keys == set k | k in results :: IntToString(k);
    InjectiveImageSize(results.Keys);
  }

  lemma {:induction false} InjectiveImageSize(keys: set<int>)
    ensures |set k | k in keys :: IntToString(k)| == |keys|
  {
    if keys != {} {
      NonEmptyInts(keys);
      var x :| x in keys;
      var rest := keys - {x};
      InjectiveImageSize(rest);
      var image := set k | k in keys :: IntToString(k);
      var restImage := set k | k in rest :: IntToString(k);
      assert IntToString(x) !in restImage by {
        if IntToString(x) in restImage {
          var k :| k in rest && IntToString(k) == IntToString(x);
          IntToStringInjective(k, x);
        }
      }
      assert image == restImage + {IntToString(x)};
    }
  }

  /** What every record of one finished evaluation shares. */
  datatype Header = Header(doctorId: string, sessionId: string, patientCpf: string, patientName: string,
                           hasDeformities: bool, date: int)

  /** One `batch.set(docRef, data)`: the record stored under a document id. */
  datatype Write = Write(id: string, record: TestRecord)

  /** The write for one limb: its record, built from the shared header, the limb, the limb's
      grade and its stringified points, stored under `sessionId_bodyPart`. */
  function LimbWrite(h: Header, bodyPart: string, results: PointMap): Write
  {
    Write(TestId(h.sessionId, bodyPart),
          TestRecord(h.sessionId, h.patientCpf, h.patientName, h.doctorId, bodyPart, h.date,
                     LimbGrade(results, h.hasDeformities), h.hasDeformities, PointsData(results)))
  }

  /** `writes` is a batch for the evaluation: every write is the write of one tested limb, no
      limb is written twice, and every tested limb is written. */
  ghost predicate IsBatchFor(h: Header, allResults: map<string, PointMap>, writes: seq<Write>) {
    && (forall i :: 0 <= i < |writes| ==>
          var part := writes[i].record.bodyPart;
          part in allResults && writes[i] == LimbWrite(h, part, allResults[part]))
    && (forall i, j :: 0 <= i < j < |writes| ==> writes[i].record.bodyPart != writes[j].record.bodyPart)
    && (forall part :: part in allResults ==> exists i :: 0 <= i < |writes| && writes[i].record.bodyPart == part)
  }

  /** The documents of a batch have distinct ids, so no write overwrites another. */
  lemma BatchIdsDistinct(h: Header, allResults: map<string, PointMap>, writes: seq<Write>)
    requires IsBatchFor(h, allResults, writes)
    ensures forall i, j :: 0 <= i < j < |writes| ==> writes[i].id != writes[j].id
  {
    forall i, j | 0 <= i < j < |writes| ensures writes[i].id != writes[j].id {
      if writes[i].id == writes[j].id {
        TestIdInjective(h.sessionId, writes[i].record.bodyPart, writes[j].record.bodyPart);
      }
    }
  }

  /** A batch holds exactly one write per tested limb. */
  lemma BatchSize(h: Header, allResults: map<string, PointMap>, writes: seq<Write>)
    requires IsBatchFor(h, allResults, writes)
    ensures |writes| == |allResults|
  {
    var parts := set i | 0 <= i < |writes| :: writes[i].record.bodyPart;
    assert parts == allResults.Keys by {
      forall part | part in allResults ensures part in parts {
        var i :| 0 <= i < |writes| && writes[i].record.bodyPart == part;
      }
    }
    DistinctImageSize(writes);
  }

  lemma {:induction false} DistinctImageSize(writes: seq<Write>)
    requires forall i, j :: 0 <= i < j < |writes| ==> writes[i].record.bodyPart != writes[j].record.bodyPart
    ensures |set i | 0 <= i < |writes| :: writes[i].record.bodyPart| == |writes|
  {
    if writes != [] {
      var init := writes[..|writes| - 1];
      DistinctImageSize(init);
      var last := writes[|writes| - 1].record.bodyPart;
      var before := set i | 0 <= i < |init| :: init[i].record.bodyPart;
      var all := set i | 0 <= i < |writes| :: writes[i].record.bodyPart;
      assert all == before + {last} by {
        forall part | part in all ensures part in before + {last} {
          var i :| 0 <= i < |writes| && writes[i].record.bodyPart == part;
          if i < |init| { assert init[i] == writes[i]; }
        }
        forall part | part in before ensures part in all {
          var i :| 0 <= i < |init| && init[i].record.bodyPart == part;
          assert writes[i] == init[i];
        }
      }
    }
  }

  /** Every write so far is the write of a tested limb outside `todo`. */
  ghost predicate WritesDone(h: Header, allResults: map<string, PointMap>, todo: set<string>, batch: seq<Write>) {
    forall i :: 0 <= i < |batch| ==>
      var part := batch[i].record.bodyPart;
      part in allResults && part !in todo && batch[i] == LimbWrite(h, part, allResults[part])
  }

  /** No limb is written twice. */
  ghost predicate LimbsDistinct(batch: seq<Write>) {
    forall i, j :: 0 <= i < j < |batch| ==> batch[i].record.bodyPart != batch[j].record.bodyPart
  }

  /** Every tested limb outside `todo` is written, at the position `writeOf` records. */
  ghost predicate DoneWritten(allResults: map<string, PointMap>, todo: set<string>, batch: seq<Write>,
                              writeOf: map<string, nat>) {
    forall part :: part in allResults && part !in todo ==>
      part in writeOf && writeOf[part] < |batch| && batch[writeOf[part]].record.bodyPart == part
  }

  /** The loop state of `SaveCompleteSession`. */
  ghost predicate Built(h: Header, allResults: map<string, PointMap>, todo: set<string>, batch: seq<Write>,
                        writeOf: map<string, nat>)
  {
    && todo <= allResults.Keys
    && WritesDone(h, allResults, todo, batch)
    && LimbsDistinct(batch)
    && DoneWritten(allResults, todo, batch, writeOf)
  }

  lemma WritesDoneStep(h: Header, allResults: map<string, PointMap>, todo: set<string>, batch: seq<Write>, part: string)
    requires WritesDone(h, allResults, todo, batch) && part in todo && part in allResults
    ensures WritesDone(h, allResults, todo - {part}, batch + [LimbWrite(h, part, allResults[part])])
  {
    var batch' := batch + [LimbWrite(h, part, allResults[part])];
    forall i | 0 <= i < |batch'|
      ensures var p := batch'[i].record.bodyPart;
              p in allResults && p !in todo - {part} && batch'[i] == LimbWrite(h, p, allResults[p])
    {
      if i < |batch| { assert batch'[i] == batch[i]; }
    }
  }

  lemma LimbsDistinctStep(h: Header, allResults: map<string, PointMap>, todo: set<string>, batch: seq<Write>, part: string)
    requires WritesDone(h, allResults, todo, batch) && LimbsDistinct(batch) && part in todo && part in allResults
    ensures LimbsDistinct(batch + [LimbWrite(h, part, allResults[part])])
  {
    var batch' := batch + [LimbWrite(h, part, allResults[part])];
    forall i, j | 0 <= i < j < |batch'| ensures batch'[i].record.bodyPart != batch'[j].record.bodyPart {
      assert batch'[i] == batch[i];
      if j < |batch| { assert batch'[j] == batch[j]; }
    }
  }

  lemma DoneWrittenStep(h: Header, allResults: map<string, PointMap>, todo: set<string>, batch: seq<Write>,
                        writeOf: map<string, nat>, part: string)
    requires DoneWritten(allResults, todo, batch, writeOf) && part in allResults
    ensures DoneWritten(allResults, todo - {part}, batch + [LimbWrite(h, part, allResults[part])], writeOf[part := |batch|])
  {
    var batch' := batch + [LimbWrite(h, part, allResults[part])];
    var writeOf' := writeOf[part := |batch|];
    forall p | p in allResults && p !in todo - {part}
      ensures p in writeOf' && writeOf'[p] < |batch'| && batch'[writeOf'[p]].record.bodyPart == p
    {
      if p != part { assert batch'[writeOf[p]] == batch[writeOf[p]]; }
    }
  }

  lemma BuiltStep(h: Header, allResults: map<string, PointMap>, todo: set<string>, batch: seq<Write>,
                  writeOf: map<string, nat>, part: string)
    requires Built(h, allResults, todo, batch, writeOf) && part in todo
    ensures Built(h, allResults, todo - {part}, batch + [LimbWrite(h, part, allResults[part])],
                  writeOf[part := |batch|])
  {
    WritesDoneStep(h, allResults, todo, batch, part);
    LimbsDistinctStep(h, allResults, todo, batch, part);
    DoneWrittenStep(h, allResults, todo, batch, writeOf, part);
  }

  lemma BuiltDone(h: Header, allResults: map<string, PointMap>, batch: seq<Write>, writeOf: map<string, nat>)
    requires Built(h, allResults, {}, batch, writeOf)
    ensures IsBatchFor(h, allResults, batch)
  {
    assert WritesDone(h, allResults, {}, batch) && LimbsDistinct(batch) && DoneWritten(allResults, {}, batch, writeOf);
    forall part | part in allResults ensures exists i :: 0 <= i < |batch| && batch[i].record.bodyPart == part {
      var i := writeOf[part];
    }
  }

  /** `saveCompleteSession`: without a signed-in clinician it fails with "Não logado" and builds
      nothing; otherwise it builds, limb by limb, the batch of records to be written. */
  method SaveCompleteSession(uid: Option<string>, sessionId: string, patientCpf: string, patientName: string,
                             allResults: map<string, PointMap>, hasDeformities: bool, now: int)
    returns (r: Result<seq<Write>>)
    ensures uid.None? <==> r == Failure(NotSignedIn)
    ensures uid.Some? ==> r.Success? && IsBatchFor(Header(uid.value, sessionId, patientCpf, patientName, hasDeformities, now), allResults, r.value)
  {
    if uid.None? {
      return Failure(NotSignedIn);
    }
    ghost var h := Header(uid.value, sessionId, patientCpf, patientName, hasDeformities, now);
    var batch: seq<Write> := [];
    var todo := allResults.Keys;
    ghost var writeOf: map<string, nat> := map[];
    while todo != {}
      invariant Built(h, allResults, todo, batch, writeOf)
      decreases todo
    {
      NonEmpty(todo);
      var bodyPart :| bodyPart in todo;
      var testId := TestId(sessionId, bodyPart);
      var results := allResults[bodyPart];
      var maxLevel := MaxLevel(results);
      var risk := if hasDeformities then 2 else if maxLevel >= ProtectiveLossLevel then 1 else 0;
      var data := TestRecord(sessionId, patientCpf, patientName, uid.value, bodyPart, now, risk,
                             hasDeformities, PointsData(results));
      assert Write(testId, data) == LimbWrite(h, bodyPart, results);
      BuiltStep(h, allResults, todo, batch, writeOf, bodyPart);
      writeOf := writeOf[bodyPart := |batch|];
      batch := batch + [Write(testId, data)];
      todo := todo - {bodyPart};
    }
    BuiltDone(h, allResults, batch, writeOf);
    return Success(batch);
  }

  // ---------------------------------------------------------------------------------------
  // The clinician's name

  /** `getUserName`: the first space-separated word of the stored name, or "Doutor(a)" when no
      one is signed in, the profile cannot be read or it holds no name (`storedName` is None). */
  function UserDisplayName(signedIn: bool, storedName: Option<string>): (r: string)
    ensures !signedIn || storedName.None? ==> r == DefaultUserName
    ensures signedIn && storedName.Some? ==>
      |r| <= |storedName.value| && ' ' !in r && r == storedName.value[..|r|] && (|r| == |storedName.value| || storedName.value[|r|] == ' ')
  {
    if signedIn && storedName.Some? then FirstWord(storedName.value) else DefaultUserName
  }

  lemma UserDisplayNameExample()
    ensures UserDisplayName(true, Some("Ana Maria Souza")) == "Ana"
    ensures UserDisplayName(false, Some("Ana Maria Souza")) == DefaultUserName
  {
    assert "Ana Maria Souza" == "Ana" + " Maria Souza";
    FirstWordAt("Ana", " Maria Souza");
  }
}
