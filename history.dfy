/** The doctor's history screens, read back from the `tests` collection: `getGroupedHistory`
    (patients, each with their sessions and the worst grade of each session) and
    `getRecentPatients` (the last patients examined), in both EstesioCloud copies.
    The Firestore query is abstracted to the sequence of documents it returns, each read back
    as a `Row` whose fields are absent when missing or of another type. Dates are integer
    timestamps; the current time (`Date()`) is the parameter `now`, `Date(0)` is 0. */
module History {
  import opened Wrappers
  import opened Text
  import opened Sorting
  import Cloud

  const UnknownName: string := "Desconhecido"
  const UnnamedPatient: string := "Paciente"

  /** One `tests` document as the history queries read it. */
  datatype Row = Row(cpf: Option<string>, name: Option<string>, sessionId: Option<string>,
                     date: Option<int>, gif: Option<int>)

  /** `(doc.getLong("gif") ?: 0).toInt()`. */
  function RowGif(r: Row): int {
    ToInt32(r.gif.GetOr(0))
  }

  /** `doc.getTimestamp("date")?.toDate() ?: Date()`. */
  function RowDate(r: Row, now: int): int {
    r.date.GetOr(now)
  }

  /** A row the grouping keeps for patient `cpf` (it has both a cpf and a session id). */
  predicate OfPatient(r: Row, cpf: string) {
    r.cpf == Some(cpf) && r.sessionId.Some?
  }

  predicate InSession(r: Row, cpf: string, sid: string) {
    r.cpf == Some(cpf) && r.sessionId == Some(sid)
  }

  datatype SessionData = SessionData(sessionId: string, date: int, maxGif: int)
  datatype PatientHistoryData = PatientHistoryData(name: string, cpf: string, sessions: seq<SessionData>)

  // ---------------------------------------------------------------------------------------
  // Grouping, one document at a time

  /** The position of patient `cpf` in the insertion-ordered `patientsMap`, or -1. */
  function FindPatient(ps: seq<PatientHistoryData>, cpf: string): (i: int)
    ensures -1 <= i < |ps|
    ensures 0 <= i ==> ps[i].cpf == cpf
    ensures forall j :: 0 <= j < |ps| && (i < 0 || j < i) ==> ps[j].cpf != cpf
  {
    if ps == [] then -1
    else if ps[0].cpf == cpf then 0
    else
      var i := FindPatient(ps[1..], cpf);
      if i < 0 then -1 else i + 1
  }

  /** `sessions.find { it.sessionId == sessionId }`, as a position, or -1. */
  function FindSession(ss: seq<SessionData>, sid: string): (k: int)
    ensures -1 <= k < |ss|
    ensures 0 <= k ==> ss[k].sessionId == sid
    ensures forall j :: 0 <= j < |ss| && (k < 0 || j < k) ==> ss[j].sessionId != sid
  {
    if ss == [] then -1
    else if ss[0].sessionId == sid then 0
    else
      var k := FindSession(ss[1..], sid);
      if k < 0 then -1 else k + 1
  }

  /** A session list after one document of session `sid`: the session is created (dated from
      this document, grade 0) when missing, then its `maxGif` is raised to `gif` if lower. */
  function MergeSession(ss: seq<SessionData>, sid: string, date: int, gif: int): seq<SessionData> {
    var k := FindSession(ss, sid);
    var s := if 0 <= k then ss[k] else SessionData(sid, date, 0);
    var s' := if gif > s.maxGif then s.(maxGif := gif) else s;
    if 0 <= k then ss[k := s'] else ss + [s']
  }

  /** `patientsMap.getOrPut(cpf) { PatientHistoryData(name, cpf, mutableListOf()) }`. */
  function PatientFor(ps: seq<PatientHistoryData>, row: Row): PatientHistoryData
    requires row.cpf.Some?
  {
    var i := FindPatient(ps, row.cpf.value);
    if 0 <= i then ps[i] else PatientHistoryData(row.name.GetOr(UnknownName), row.cpf.value, [])
  }

  /** The body of the grouping loop for one document. */
  function AddRow(ps: seq<PatientHistoryData>, row: Row, now: int): seq<PatientHistoryData> {
    if row.cpf.None? || row.sessionId.None? then ps
    else
      var i := FindPatient(ps, row.cpf.value);
      var p := PatientFor(ps, row);
      var p' := p.(sessions := MergeSession(p.sessions, row.sessionId.value, RowDate(row, now), RowGif(row)));
      if 0 <= i then ps[i := p'] else ps + [p']
  }

  /** The `patientsMap` values, in insertion order, after the documents `rows`. */
  function Group(rows: seq<Row>, now: int): seq<PatientHistoryData> {
    if rows == [] then [] else AddRow(Group(rows[..|rows| - 1], now), rows[|rows| - 1], now)
  }

  // ---------------------------------------------------------------------------------------
  // Reference definitions, one patient or session at a time

  /** The first document kept for patient `cpf`, or -1. */
  function FirstPatientRow(rows: seq<Row>, cpf: string): (f: int)
    ensures -1 <= f < |rows|
    ensures 0 <= f ==> OfPatient(rows[f], cpf)
    ensures forall j :: 0 <= j < |rows| && (f < 0 || j < f) ==> !OfPatient(rows[j], cpf)
  {
    if rows == [] then -1
    else
      var f := FirstPatientRow(rows[..|rows| - 1], cpf);
      if 0 <= f then f else if OfPatient(rows[|rows| - 1], cpf) then |rows| - 1 else -1
  }

  /** The first document of session `sid` of patient `cpf`, or -1. */
  function FirstSessionRow(rows: seq<Row>, cpf: string, sid: string): (f: int)
    ensures -1 <= f < |rows|
    ensures 0 <= f ==> InSession(rows[f], cpf, sid)
    ensures forall j :: 0 <= j < |rows| && (f < 0 || j < f) ==> !InSession(rows[j], cpf, sid)
  {
    if rows == [] then -1
    else
      var f := FirstSessionRow(rows[..|rows| - 1], cpf, sid);
      if 0 <= f then f else if InSession(rows[|rows| - 1], cpf, sid) then |rows| - 1 else -1
  }

  /** max(0, grades of the documents of session `sid` of patient `cpf`). */
  function MaxGifOf(rows: seq<Row>, cpf: string, sid: string): (m: int)
    ensures 0 <= m
    ensures forall j :: 0 <= j < |rows| && InSession(rows[j], cpf, sid) ==> RowGif(rows[j]) <= m
    ensures m == 0 || exists j :: 0 <= j < |rows| && InSession(rows[j], cpf, sid) && RowGif(rows[j]) == m
  {
    if rows == [] then 0
    else
      var m := MaxGifOf(rows[..|rows| - 1], cpf, sid);
      var last := rows[|rows| - 1];
      if InSession(last, cpf, sid) && RowGif(last) > m then RowGif(last) else m
  }

  predicate SessionsDistinct(ss: seq<SessionData>) {
    forall i, j :: 0 <= i < j < |ss| ==> ss[i].sessionId != ss[j].sessionId
  }

  /** One entry per patient, each with at least one session and one entry per session. */
  ghost predicate WellFormed(ps: seq<PatientHistoryData>) {
    && (forall i, j :: 0 <= i < j < |ps| ==> ps[i].cpf != ps[j].cpf)
    && (forall i :: 0 <= i < |ps| ==> ps[i].sessions != [] && SessionsDistinct(ps[i].sessions))
  }

  /** Patient `cpf` is listed iff some kept document names it, under that document's name. */
  ghost predicate PatientAgrees(ps: seq<PatientHistoryData>, rows: seq<Row>, cpf: string) {
    var i := FindPatient(ps, cpf);
    var f := FirstPatientRow(rows, cpf);
    (0 <= i <==> 0 <= f) && (0 <= i ==> ps[i].name == rows[f].name.GetOr(UnknownName))
  }

  /** Session `sid` is listed under patient `cpf` iff some document belongs to it, dated from
      its first document and graded with the maximum of its documents' grades and 0. */
  ghost predicate SessionAgrees(ps: seq<PatientHistoryData>, rows: seq<Row>, now: int, cpf: string, sid: string) {
    var i := FindPatient(ps, cpf);
    var f := FirstSessionRow(rows, cpf, sid);
    if i < 0 then f < 0
    else
      var k := FindSession(ps[i].sessions, sid);
      && (0 <= k <==> 0 <= f)
      && (0 <= k ==> ps[i].sessions[k] == SessionData(sid, RowDate(rows[f], now), MaxGifOf(rows, cpf, sid)))
  }

  ghost predicate Agrees(ps: seq<PatientHistoryData>, rows: seq<Row>, now: int) {
    && WellFormed(ps)
    && (forall cpf :: PatientAgrees(ps, rows, cpf))
    && (forall cpf, sid :: SessionAgrees(ps, rows, now, cpf, sid))
  }

  // ---------------------------------------------------------------------------------------
  // The grouping agrees with the reference definitions

  lemma {:induction false} FindPatientUpdate(ps: seq<PatientHistoryData>, i: int, p: PatientHistoryData, cpf: string)
    requires 0 <= i < |ps| && p.cpf == ps[i].cpf
    ensures FindPatient(ps[i := p], cpf) == FindPatient(ps, cpf)
  {
    if ps[0].cpf != cpf && 0 < i {
      FindPatientUpdate(ps[1..], i - 1, p, cpf);
      assert ps[i := p][1..] == ps[1..][i - 1 := p];
    }
  }

  lemma {:induction false} FindPatientAppend(ps: seq<PatientHistoryData>, p: PatientHistoryData, cpf: string)
    requires FindPatient(ps, p.cpf) < 0
    ensures FindPatient(ps + [p], cpf) == if cpf == p.cpf then |ps| else FindPatient(ps, cpf)
  {
    if ps != [] && ps[0].cpf != cpf {
      FindPatientAppend(ps[1..], p, cpf);
      assert (ps + [p])[1..] == ps[1..] + [p];
    }
  }

  lemma {:induction false} FindSessionUpdate(ss: seq<SessionData>, k: int, s: SessionData, sid: string)
    requires 0 <= k < |ss| && s.sessionId == ss[k].sessionId
    ensures FindSession(ss[k := s], sid) == FindSession(ss, sid)
  {
    if ss[0].sessionId != sid && 0 < k {
      FindSessionUpdate(ss[1..], k - 1, s, sid);
      assert ss[k := s][1..] == ss[1..][k - 1 := s];
    }
  }

  lemma {:induction false} FindSessionAppend(ss: seq<SessionData>, s: SessionData, sid: string)
    requires FindSession(ss, s.sessionId) < 0
    ensures FindSession(ss + [s], sid) == if sid == s.sessionId then |ss| else FindSession(ss, sid)
  {
    if ss != [] && ss[0].sessionId != sid {
      FindSessionAppend(ss[1..], s, sid);
      assert (ss + [s])[1..] == ss[1..] + [s];
    }
  }

  /** What merging a document of session `sid` does to the lookup of session `x`. */
  lemma MergeSessionAt(ss: seq<SessionData>, sid: string, date: int, gif: int, x: string)
    ensures var m := MergeSession(ss, sid, date, gif);
            var k := FindSession(ss, x);
            var k' := FindSession(m, x);
            && (0 <= k' <==> 0 <= k || x == sid)
            && (x != sid && 0 <= k ==> m[k'] == ss[k])
            && (x == sid && 0 <= k ==> m[k'] == ss[k].(maxGif := if gif > ss[k].maxGif then gif else ss[k].maxGif))
            && (x == sid && k < 0 ==> m[k'] == SessionData(sid, date, if gif > 0 then gif else 0))
  {
    var k0 := FindSession(ss, sid);
    var s := if 0 <= k0 then ss[k0] else SessionData(sid, date, 0);
    var s' := if gif > s.maxGif then s.(maxGif := gif) else s;
    if 0 <= k0 {
      FindSessionUpdate(ss, k0, s', x);
    } else {
      FindSessionAppend(ss, s', x);
    }
  }

  lemma MergeSessionWellFormed(ss: seq<SessionData>, sid: string, date: int, gif: int)
    requires SessionsDistinct(ss)
    ensures var m := MergeSession(ss, sid, date, gif); m != [] && SessionsDistinct(m)
  {
  }

  lemma AddRowWellFormed(ps: seq<PatientHistoryData>, row: Row, now: int)
    requires WellFormed(ps)
    ensures WellFormed(AddRow(ps, row, now))
  {
    if row.cpf.Some? && row.sessionId.Some? {
      var p := PatientFor(ps, row);
      MergeSessionWellFormed(p.sessions, row.sessionId.value, RowDate(row, now), RowGif(row));
    }
  }

  lemma AddRowPatient(ps: seq<PatientHistoryData>, rows: seq<Row>, row: Row, now: int, cpf: string)
    requires PatientAgrees(ps, rows, cpf)
    ensures PatientAgrees(AddRow(ps, row, now), rows + [row], cpf)
  {
    assert (rows + [row])[..|rows|] == rows;
    if row.cpf.Some? && row.sessionId.Some? {
      var i := FindPatient(ps, row.cpf.value);
      var p := PatientFor(ps, row);
      var p' := p.(sessions := MergeSession(p.sessions, row.sessionId.value, RowDate(row, now), RowGif(row)));
      if 0 <= i {
        FindPatientUpdate(ps, i, p', cpf);
      } else {
        FindPatientAppend(ps, p', cpf);
      }
    }
  }

  /** The reference definitions for one more document. */
  lemma ExtendRows(rows: seq<Row>, row: Row, now: int, cpf: string, sid: string)
    ensures var f := FirstSessionRow(rows, cpf, sid);
            var f' := FirstSessionRow(rows + [row], cpf, sid);
            && (0 <= f ==> f' == f && (rows + [row])[f'] == rows[f])
            && (f < 0 ==> f' == if InSession(row, cpf, sid) then |rows| else -1)
            && MaxGifOf(rows + [row], cpf, sid)
               == if InSession(row, cpf, sid) && RowGif(row) > MaxGifOf(rows, cpf, sid) then RowGif(row) else MaxGifOf(rows, cpf, sid)
  {
    assert (rows + [row])[..|rows|] == rows;
  }

  /** A document of another patient, or one the grouping skips, changes nothing for `cpf`. */
  lemma AddRowOtherSession(ps: seq<PatientHistoryData>, rows: seq<Row>, row: Row, now: int, cpf: string, sid: string)
    requires SessionAgrees(ps, rows, now, cpf, sid)
    requires row.cpf != Some(cpf) || row.sessionId.None?
    ensures SessionAgrees(AddRow(ps, row, now), rows + [row], now, cpf, sid)
  {
    ExtendRows(rows, row, now, cpf, sid);
    if row.cpf.Some? && row.sessionId.Some? {
      var i := FindPatient(ps, row.cpf.value);
      var p := PatientFor(ps, row);
      var p' := p.(sessions := MergeSession(p.sessions, row.sessionId.value, RowDate(row, now), RowGif(row)));
      if 0 <= i {
        FindPatientUpdate(ps, i, p', cpf);
      } else {
        FindPatientAppend(ps, p', cpf);
      }
    }
  }

  /** A document of patient `cpf` merges into its entry, created if missing. */
  lemma AddRowSameSession(ps: seq<PatientHistoryData>, rows: seq<Row>, row: Row, now: int, cpf: string, sid: string)
    requires SessionAgrees(ps, rows, now, cpf, sid)
    requires row.cpf == Some(cpf) && row.sessionId.Some?
    ensures SessionAgrees(AddRow(ps, row, now), rows + [row], now, cpf, sid)
  {
    ExtendRows(rows, row, now, cpf, sid);
    var i := FindPatient(ps, cpf);
    var p := PatientFor(ps, row);
    var m := MergeSession(p.sessions, row.sessionId.value, RowDate(row, now), RowGif(row));
    var p' := p.(sessions := m);
    var ps' := AddRow(ps, row, now);
    var i' := FindPatient(ps', cpf);
    if 0 <= i {
      FindPatientUpdate(ps, i, p', cpf);
    } else {
      FindPatientAppend(ps, p', cpf);
    }
    assert ps'[i'] == p';
    MergeSessionAt(p.sessions, row.sessionId.value, RowDate(row, now), RowGif(row), sid);
  }

  lemma AddRowSession(ps: seq<PatientHistoryData>, rows: seq<Row>, row: Row, now: int, cpf: string, sid: string)
    requires SessionAgrees(ps, rows, now, cpf, sid)
    ensures SessionAgrees(AddRow(ps, row, now), rows + [row], now, cpf, sid)
  {
    if row.cpf == Some(cpf) && row.sessionId.Some? {
      AddRowSameSession(ps, rows, row, now, cpf, sid);
    } else {
      AddRowOtherSession(ps, rows, row, now, cpf, sid);
    }
  }

  /** The grouping lists exactly the patients and sessions of the reference definitions. */
  lemma {:induction false} GroupAgrees(rows: seq<Row>, now: int)
    ensures Agrees(Group(rows, now), rows, now)
  {
    if rows != [] {
      var init := rows[..|rows| - 1];
      var last := rows[|rows| - 1];
      assert rows == init + [last];
      GroupAgrees(init, now);
      var ps := Group(init, now);
      AddRowWellFormed(ps, last, now);
      forall cpf ensures PatientAgrees(Group(rows, now), rows, cpf) {
        AddRowPatient(ps, init, last, now, cpf);
      }
      forall cpf, sid ensures SessionAgrees(Group(rows, now), rows, now, cpf, sid) {
        AddRowSession(ps, init, last, now, cpf, sid);
      }
    }
  }

  /** The grouping loop of `getGroupedHistory`: documents without a cpf or a session id are
      skipped; `getOrPut` adds a patient on its first kept document; the session is found, or
      appended dated from this document with grade 0; its `maxGif` is raised to the
      document's grade when lower. */
  method GroupHistory(rows: seq<Row>, now: int) returns (ps: seq<PatientHistoryData>)
    ensures ps == Group(rows, now)
  {
    ps := [];
    for n := 0 to |rows|
      invariant ps == Group(rows[..n], now)
    {
      assert rows[..n + 1][..n] == rows[..n];
      var doc := rows[n];
      assert Group(rows[..n + 1], now) == AddRow(ps, doc, now);
      if doc.cpf.None? || doc.sessionId.None? {
        continue;
      }
      ps := AddDocument(ps, doc, now);
    }
    assert rows[..|rows|] == rows;
  }

  /** One kept document: `getOrPut` its patient, then record its session and grade. */
  method AddDocument(ps: seq<PatientHistoryData>, doc: Row, now: int) returns (ps': seq<PatientHistoryData>)
    requires doc.cpf.Some? && doc.sessionId.Some?
    ensures ps' == AddRow(ps, doc, now)
  {
    var cpf := doc.cpf.value;
    var i := FindPatient(ps, cpf);
    ps' := ps;
    if i < 0 {
      ps' := ps' + [PatientHistoryData(doc.name.GetOr(UnknownName), cpf, [])];
      i := |ps'| - 1;
    }
    assert ps'[i] == PatientFor(ps, doc);
    var sessions := RecordSession(ps'[i].sessions, doc.sessionId.value, RowDate(doc, now), RowGif(doc));
    ps' := ps'[i := ps'[i].(sessions := sessions)];
    assert FindPatient(ps, cpf) < 0 ==> ps' == ps + [PatientFor(ps, doc).(sessions := sessions)];
  }

  /** `sessions.find { … }`, appending the session when missing, then raising its `maxGif`. */
  method RecordSession(sessions: seq<SessionData>, sid: string, date: int, gif: int) returns (m: seq<SessionData>)
    ensures m == MergeSession(sessions, sid, date, gif)
  {
    m := sessions;
    var k := 0;
    while k < |m| && m[k].sessionId != sid
      invariant 0 <= k <= |m|
      invariant forall j :: 0 <= j < k ==> m[j].sessionId != sid
    {
      k := k + 1;
    }
    assert k == |m| <==> FindSession(m, sid) < 0;
    assert k < |m| ==> k == FindSession(m, sid);
    if k == |m| {
      m := m + [SessionData(sid, date, 0)];
    }
    if gif > m[k].maxGif {
      m := m[k := m[k].(maxGif := gif)];
    }
  }

  // ---------------------------------------------------------------------------------------
  // Newest first

  predicate NewerSession(a: SessionData, b: SessionData) {
    a.date >= b.date
  }

  /** `it.sessions.firstOrNull()?.date ?: Date(0)`. */
  function NewestDate(p: PatientHistoryData): int {
    if p.sessions == [] then 0 else p.sessions[0].date
  }

  predicate NewerPatient(a: PatientHistoryData, b: PatientHistoryData) {
    NewestDate(a) >= NewestDate(b)
  }

  /** `patient.copy(sessions = patient.sessions.sortedByDescending { it.date })`. */
  function WithSortedSessions(p: PatientHistoryData): PatientHistoryData {
    p.(sessions := SortBy(p.sessions, NewerSession))
  }

  /** The final `map { … }.sortedByDescending { … }` of `getGroupedHistory`. */
  function SortHistory(ps: seq<PatientHistoryData>): seq<PatientHistoryData> {
    SortBy(seq(|ps|, i requires 0 <= i < |ps| => WithSortedSessions(ps[i])), NewerPatient)
  }

  /** Both orders are total preorders, so the stable sorts put their input in order. */
  lemma NewerIsPreorder()
    ensures TotalPreorder(NewerSession) && TotalPreorder(NewerPatient)
  {
  }

  /** Sessions are listed newest first within a patient, and patients by their newest
      session, newest first; sorting only reorders. */
  lemma SortHistoryOrder(ps: seq<PatientHistoryData>)
    ensures var r := SortHistory(ps);
            && SortedBy(r, NewerPatient)
            && multiset(r) == multiset(seq(|ps|, i requires 0 <= i < |ps| => WithSortedSessions(ps[i])))
            && (forall i :: 0 <= i < |r| ==> SortedBy(r[i].sessions, NewerSession))
  {
    NewerIsPreorder();
    var w := seq(|ps|, i requires 0 <= i < |ps| => WithSortedSessions(ps[i]));
    forall k | 0 <= k < |w| ensures SortedBy(w[k].sessions, NewerSession) {
      assert w[k] == WithSortedSessions(ps[k]);
    }
    SessionsStaySorted(w, SortHistory(ps));
  }

  /** Reordering patients keeps each one's sessions as they were. */
  lemma SessionsStaySorted(w: seq<PatientHistoryData>, r: seq<PatientHistoryData>)
    requires multiset(r) == multiset(w)
    requires forall k :: 0 <= k < |w| ==> SortedBy(w[k].sessions, NewerSession)
    ensures forall i :: 0 <= i < |r| ==> SortedBy(r[i].sessions, NewerSession)
  {
    forall i | 0 <= i < |r| ensures SortedBy(r[i].sessions, NewerSession) {
      assert r[i] in multiset(w);
    }
  }

  /** With its sessions sorted, a patient's `NewestDate` is the date of its newest session. */
  lemma NewestDateIsNewest(p: PatientHistoryData)
    requires SortedBy(p.sessions, NewerSession)
    ensures forall s :: s in p.sessions ==> s.date <= NewestDate(p)
  {
  }

  /** `getGroupedHistory`: "Não logado" without a signed-in doctor; otherwise the grouped
      documents, sorted newest first. */
  method GetGroupedHistory(uid: Option<string>, rows: seq<Row>, now: int) returns (r: Result<seq<PatientHistoryData>>)
    ensures uid.None? ==> r == Failure(Cloud.NotSignedIn)
    ensures uid.Some? ==> r == Success(SortHistory(Group(rows, now)))
  {
    if uid.None? {
      return Failure(Cloud.NotSignedIn);
    }
    var ps := GroupHistory(rows, now);
    r := Success(SortHistory(ps));
  }

  // ---------------------------------------------------------------------------------------
  // Recent patients

  datatype RecentPatient = RecentPatient(name: string, cpf: string, lastExam: int)

  /** The sort key of `getRecentPatients`: `doc.getTimestamp("date")?.toDate() ?: Date(0)`. */
  function SortDate(r: Row): int {
    r.date.GetOr(0)
  }

  predicate NewerRow(a: Row, b: Row) {
    SortDate(a) >= SortDate(b)
  }

  lemma NewerRowIsPreorder()
    ensures TotalPreorder(NewerRow)
  {
  }

  /** The entry added for a document: its name or "Paciente", its cpf, and its date or now. */
  function Entry(r: Row, now: int): RecentPatient
    requires r.cpf.Some?
  {
    RecentPatient(r.name.GetOr(UnnamedPatient), r.cpf.value, RowDate(r, now))
  }

  /** The first document of patient `cpf` (session id or not), or -1. */
  function FirstCpfRow(rows: seq<Row>, cpf: string): (f: int)
    ensures -1 <= f < |rows|
    ensures 0 <= f ==> rows[f].cpf == Some(cpf)
    ensures forall j :: 0 <= j < |rows| && (f < 0 || j < f) ==> rows[j].cpf != Some(cpf)
  {
    if rows == [] then -1
    else
      var f := FirstCpfRow(rows[..|rows| - 1], cpf);
      if 0 <= f then f else if rows[|rows| - 1].cpf == Some(cpf) then |rows| - 1 else -1
  }

  function Cpfs(es: seq<RecentPatient>): set<string> {
    set e | e in es :: e.cpf
  }

  /** The de-duplication by `seen`: a document adds an entry when its cpf is new. */
  function Dedup(rows: seq<Row>, now: int): seq<RecentPatient> {
    if rows == [] then []
    else
      var es := Dedup(rows[..|rows| - 1], now);
      var last := rows[|rows| - 1];
      if last.cpf.None? || last.cpf.value in Cpfs(es) then es else es + [Entry(last, now)]
  }

  lemma CpfsAppend(es: seq<RecentPatient>, e: RecentPatient)
    ensures Cpfs(es + [e]) == Cpfs(es) + {e.cpf}
  {
    assert forall x :: x in es + [e] <==> x in es || x == e;
  }

  lemma ExtendCpfRow(rows: seq<Row>, row: Row, cpf: string)
    ensures var f := FirstCpfRow(rows, cpf);
            var f' := FirstCpfRow(rows + [row], cpf);
            && (0 <= f ==> f' == f && (rows + [row])[f] == rows[f])
            && (f < 0 ==> f' == if row.cpf == Some(cpf) then |rows| else -1)
  {
    assert (rows + [row])[..|rows|] == rows;
  }

  ghost predicate CpfsDistinct(es: seq<RecentPatient>) {
    forall i, j :: 0 <= i < j < |es| ==> es[i].cpf != es[j].cpf
  }

  /** Every entry is made from the first document of its cpf. */
  ghost predicate FromFirstRows(rows: seq<Row>, es: seq<RecentPatient>, now: int) {
    forall i :: 0 <= i < |es| ==>
      0 <= FirstCpfRow(rows, es[i].cpf) && es[i] == Entry(rows[FirstCpfRow(rows, es[i].cpf)], now)
  }

  /** Entries are in order of first appearance of their cpf. */
  ghost predicate InFirstOrder(rows: seq<Row>, es: seq<RecentPatient>) {
    forall i, j :: 0 <= i < j < |es| ==> FirstCpfRow(rows, es[i].cpf) < FirstCpfRow(rows, es[j].cpf)
  }

  /** Every cpf of the documents has an entry. */
  ghost predicate CoversCpfs(rows: seq<Row>, es: seq<RecentPatient>) {
    forall j :: 0 <= j < |rows| && rows[j].cpf.Some? ==> rows[j].cpf.value in Cpfs(es)
  }

  lemma ExtendCpfRows(rows: seq<Row>, row: Row)
    ensures forall c :: var f := FirstCpfRow(rows, c);
                        var f' := FirstCpfRow(rows + [row], c);
                        && (0 <= f ==> f' == f && (rows + [row])[f] == rows[f])
                        && (f < 0 ==> f' == if row.cpf == Some(c) then |rows| else -1)
  {
    forall c ensures var f := FirstCpfRow(rows, c);
                     var f' := FirstCpfRow(rows + [row], c);
                     && (0 <= f ==> f' == f && (rows + [row])[f] == rows[f])
                     && (f < 0 ==> f' == if row.cpf == Some(c) then |rows| else -1) {
      ExtendCpfRow(rows, row, c);
    }
  }

  /** A document whose cpf already has an entry adds nothing; otherwise its cpf is new. */
  lemma DedupUnfold(rows: seq<Row>, row: Row, now: int)
    ensures var es := Dedup(rows, now);
            Dedup(rows + [row], now)
            == if row.cpf.None? || row.cpf.value in Cpfs(es) then es else es + [Entry(row, now)]
  {
    assert (rows + [row])[..|rows|] == rows;
  }

  lemma DistinctStep(rows: seq<Row>, row: Row, now: int)
    requires CpfsDistinct(Dedup(rows, now))
    ensures CpfsDistinct(Dedup(rows + [row], now))
  {
    DedupUnfold(rows, row, now);
    var es := Dedup(rows, now);
    assert forall i :: 0 <= i < |es| ==> es[i].cpf in Cpfs(es);
  }

  lemma CoversStep(rows: seq<Row>, row: Row, now: int)
    requires CoversCpfs(rows, Dedup(rows, now))
    ensures CoversCpfs(rows + [row], Dedup(rows + [row], now))
  {
    DedupUnfold(rows, row, now);
    var es := Dedup(rows, now);
    if row.cpf.Some? && row.cpf.value !in Cpfs(es) {
      CpfsAppend(es, Entry(row, now));
    }
  }

  /** The cpf of an added entry has no earlier document. */
  lemma NewCpfIsFirst(rows: seq<Row>, row: Row, now: int)
    requires CoversCpfs(rows, Dedup(rows, now))
    requires row.cpf.Some? && row.cpf.value !in Cpfs(Dedup(rows, now))
    ensures FirstCpfRow(rows + [row], row.cpf.value) == |rows|
  {
    ExtendCpfRow(rows, row, row.cpf.value);
  }

  lemma FromFirstStep(rows: seq<Row>, row: Row, now: int)
    requires FromFirstRows(rows, Dedup(rows, now), now) && CoversCpfs(rows, Dedup(rows, now))
    ensures FromFirstRows(rows + [row], Dedup(rows + [row], now), now)
  {
    DedupUnfold(rows, row, now);
    ExtendCpfRows(rows, row);
    var es := Dedup(rows, now);
    if row.cpf.Some? && row.cpf.value !in Cpfs(es) {
      NewCpfIsFirst(rows, row, now);
    }
  }

  lemma OrderStep(rows: seq<Row>, row: Row, now: int)
    requires InFirstOrder(rows, Dedup(rows, now)) && FromFirstRows(rows, Dedup(rows, now), now)
    requires CoversCpfs(rows, Dedup(rows, now))
    ensures InFirstOrder(rows + [row], Dedup(rows + [row], now))
  {
    DedupUnfold(rows, row, now);
    ExtendCpfRows(rows, row);
    var es := Dedup(rows, now);
    if row.cpf.Some? && row.cpf.value !in Cpfs(es) {
      NewCpfIsFirst(rows, row, now);
    }
  }

  /** The de-duplication keeps one entry per cpf, made from its first document, in order of
      first appearance, and leaves no cpf out. */
  lemma {:induction false} DedupSpec(rows: seq<Row>, now: int)
    ensures var es := Dedup(rows, now);
            CpfsDistinct(es) && FromFirstRows(rows, es, now) && InFirstOrder(rows, es) && CoversCpfs(rows, es)
  {
    if rows != [] {
      var init := rows[..|rows| - 1];
      assert rows == init + [rows[|rows| - 1]];
      DedupSpec(init, now);
      DistinctStep(init, rows[|rows| - 1], now);
      CoversStep(init, rows[|rows| - 1], now);
      FromFirstStep(init, rows[|rows| - 1], now);
      OrderStep(init, rows[|rows| - 1], now);
    }
  }

  /** Stopping early yields a prefix of the full de-duplication. */
  lemma {:induction false} DedupPrefix(rows: seq<Row>, n: int, now: int)
    requires 0 <= n <= |rows|
    ensures var d := Dedup(rows[..n], now);
            |d| <= |Dedup(rows, now)| && Dedup(rows, now)[..|d|] == d
  {
    if n < |rows| {
      var init := rows[..|rows| - 1];
      assert init[..n] == rows[..n];
      DedupPrefix(init, n, now);
    } else {
      assert rows[..n] == rows;
    }
  }

  /** The loop collects entries until there are `limit` of them; the size is checked after
      each insertion, so at least one entry is kept whatever `limit` is. */
  function Cap(limit: int): int {
    if limit < 1 then 1 else limit
  }

  /** The first `Cap(limit)` entries of the de-duplicated documents `sorted`. */
  function Capped(sorted: seq<Row>, limit: int, now: int): seq<RecentPatient> {
    var d := Dedup(sorted, now);
    if |d| <= Cap(limit) then d else d[..Cap(limit)]
  }

  /** The result of `getRecentPatients` for a signed-in doctor. */
  function Recent(rows: seq<Row>, limit: int, now: int): seq<RecentPatient> {
    Capped(SortBy(rows, NewerRow), limit, now)
  }

  /** Once `Cap(limit)` entries are collected, the rest of the documents do not matter. */
  lemma StopAt(sorted: seq<Row>, n: int, limit: int, now: int)
    requires 0 <= n <= |sorted|
    requires |Dedup(sorted[..n], now)| == Cap(limit)
    ensures Capped(sorted, limit, now) == Dedup(sorted[..n], now)
  {
    DedupPrefix(sorted, n, now);
  }

  /** `getRecentPatients`: "Não logado" without a signed-in doctor; otherwise the documents
      newest first, one entry per new cpf, stopping once `limit` entries exist. */
  method GetRecentPatients(uid: Option<string>, rows: seq<Row>, limit: int, now: int) returns (r: Result<seq<RecentPatient>>)
    ensures uid.None? ==> r == Failure(Cloud.NotSignedIn)
    ensures uid.Some? ==> r == Success(Recent(rows, limit, now))
  {
    if uid.None? {
      return Failure(Cloud.NotSignedIn);
    }
    var sorted := SortBy(rows, NewerRow);
    var recent := CollectRecent(sorted, limit, now);
    r := Success(recent);
  }

  /** The loop of `getRecentPatients` over the sorted documents: a document whose cpf is
      missing or already seen is skipped; the size check follows each insertion. */
  method CollectRecent(sorted: seq<Row>, limit: int, now: int) returns (recent: seq<RecentPatient>)
    ensures recent == Capped(sorted, limit, now)
  {
    recent := [];
    var seen: set<string> := {};
    for n := 0 to |sorted|
      invariant recent == Dedup(sorted[..n], now)
      invariant seen == Cpfs(recent)
      invariant |recent| < Cap(limit)
    {
      assert sorted[..n + 1] == sorted[..n] + [sorted[n]];
      DedupUnfold(sorted[..n], sorted[n], now);
      var doc := sorted[n];
      if doc.cpf.None? {
        continue;
      }
      var cpf := doc.cpf.value;
      if cpf in seen {
        continue;
      }
      CpfsAppend(recent, Entry(doc, now));
      recent := recent + [Entry(doc, now)];
      seen := seen + {cpf};
      if |recent| >= limit {
        assert recent == Dedup(sorted[..n + 1], now);
        StopAt(sorted, n + 1, limit, now);
        return;
      }
    }
    assert sorted[..|sorted|] == sorted;
  }

  /** The document an entry comes from is the newest document of its patient. */
  lemma NewestOfPatient(rows: seq<Row>, cpf: string, j: int)
    requires 0 <= j < |rows| && rows[j].cpf == Some(cpf)
    ensures var sorted := SortBy(rows, NewerRow);
            var f := FirstCpfRow(sorted, cpf);
            0 <= f && SortDate(rows[j]) <= SortDate(sorted[f])
  {
    var sorted := SortBy(rows, NewerRow);
    var m := PositionInSorted(rows, j);
    var f := FirstCpfRow(sorted, cpf);
    assert 0 <= f <= m;
    if f < m {
      NewerRowIsPreorder();
      assert SortedBy(sorted, NewerRow);
      assert NewerRow(sorted[f], sorted[m]);
    }
  }

  /** Where a document ends up after sorting. */
  lemma PositionInSorted(rows: seq<Row>, j: int) returns (m: int)
    requires 0 <= j < |rows|
    ensures 0 <= m < |SortBy(rows, NewerRow)| && SortBy(rows, NewerRow)[m] == rows[j]
  {
    var sorted := SortBy(rows, NewerRow);
    assert rows[j] in multiset(rows);
    assert rows[j] in multiset(sorted);
    m :| 0 <= m < |sorted| && sorted[m] == rows[j];
  }

  /** What the recent list promises: at most `Cap(limit)` entries, one per cpf, each made
      from the newest document of its patient; a shorter list names every patient. */
  lemma RecentIsNewestPerPatient(rows: seq<Row>, limit: int, now: int)
    ensures var es := Recent(rows, limit, now);
            var sorted := SortBy(rows, NewerRow);
            && |es| <= Cap(limit)
            && (forall i, j :: 0 <= i < j < |es| ==> es[i].cpf != es[j].cpf)
            && (forall i :: 0 <= i < |es| ==>
                  var f := FirstCpfRow(sorted, es[i].cpf);
                  && 0 <= f && es[i] == Entry(sorted[f], now)
                  && forall j :: 0 <= j < |rows| && rows[j].cpf == Some(es[i].cpf) ==> SortDate(rows[j]) <= SortDate(sorted[f]))
            && (|es| < Cap(limit) ==> forall j :: 0 <= j < |rows| && rows[j].cpf.Some? ==> rows[j].cpf.value in Cpfs(es))
  {
    var es := Recent(rows, limit, now);
    var sorted := SortBy(rows, NewerRow);
    DedupSpec(sorted, now);
    forall i, j | 0 <= i < |es| && 0 <= j < |rows| && rows[j].cpf == Some(es[i].cpf)
      ensures SortDate(rows[j]) <= SortDate(sorted[FirstCpfRow(sorted, es[i].cpf)])
    {
      NewestOfPatient(rows, es[i].cpf, j);
    }
    forall j | 0 <= j < |rows| && rows[j].cpf.Some? && |es| < Cap(limit)
      ensures rows[j].cpf.value in Cpfs(es)
    {
      assert rows[j] in multiset(sorted);
      var m :| 0 <= m < |sorted| && sorted[m] == rows[j];
    }
  }
}
