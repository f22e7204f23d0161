/** The point-measurement handshake of the limb test screen (`TesteActivity`, both copies).
    The clinician arms a point on the limb drawing; the probe then streams text lines: each
    integer is the level of the monofilament currently pressed, and the token "Enviado" asks
    the screen to commit the last positive level to the armed point and disarm it. */
module Measurement {
  import opened Wrappers
  import opened Text
  import opened Session

  /** The probe's confirm line, compared after trimming and ignoring case. */
  const ConfirmToken: string := "Enviado"

  /** `activePointIndex` when no point is armed. */
  const NoPoint: int := -1

  /** The body part the screen falls back to when it is opened without one. */
  const DefaultBodyPart: string := "mao_direita"

  /** Hands ("mao…") have six test points, feet nine; points are numbered from 0. */
  function PointCount(bodyPart: string): nat {
    if Contains(bodyPart, "mao") then 6 else 9
  }

  lemma PointCountOfLimbs()
    ensures PointCount("mao_direita") == 6 && PointCount("mao_esquerda") == 6
    ensures PointCount("pe_direito") == 9 && PointCount("pe_esquerdo") == 9
  {
    assert OccursAt("mao_direita", "mao", 0);
    assert OccursAt("mao_esquerda", "mao", 0);
    NotContainsWithoutFirst("pe_direito", "mao");
    NotContainsWithoutFirst("pe_esquerdo", "mao");
  }

  // ---------------------------------------------------------------------------------------
  // Classifying one line from the probe

  /** What one probe line means to the handshake. */
  datatype Payload = Confirm | Number(value: int) | Other

  predicate IsConfirmToken(s: string) {
    assert forall i :: 0 <= i < |ConfirmToken| ==> IsAsciiLetter(ConfirmToken[i]) by {
      assert ConfirmToken == ['E', 'n', 'v', 'i', 'a', 'd', 'o'];
    }
    EqualsIgnoreCase(s, ConfirmToken)
  }

  /** The line trimmed, then read as the confirm token, else as a 32-bit integer, else ignored. */
  function Classify(data: string): (p: Payload)
    ensures p == Confirm <==> IsConfirmToken(Trim(data))
    ensures p.Number? <==> ParseInt(Trim(data)).Some?
    ensures p.Number? ==> ParseInt(Trim(data)) == Some(p.value) && IntMin <= p.value <= IntMax
  {
    var clean := Trim(data);
    if IsConfirmToken(clean) then
      assert ParseInt(clean) == None by {
        assert IsDigit(clean[0]) == false && clean[0] != '-' && clean[0] != '+';
      }
      Confirm
    else
      match ParseInt(clean)
      case Some(v) => Number(v)
      case None => Other
  }

  /** A level written by the probe, with any surrounding whitespace or line terminator, is read
      back as that level. */
  lemma ClassifyReading(pre: string, n: int, post: string)
    requires AllWhitespace(pre) && AllWhitespace(post)
    requires IntMin <= n <= IntMax
    ensures Classify(pre + IntToString(n) + post) == Number(n)
  {
    TrimPadded(pre, IntToString(n), post);
  }

  /** The confirm token is recognised in any letter case and with any surrounding whitespace. */
  lemma ClassifyConfirm(pre: string, t: string, post: string)
    requires AllWhitespace(pre) && AllWhitespace(post)
    requires |t| == |ConfirmToken| && forall i :: 0 <= i < |t| ==> t[i] == ConfirmToken[i] || t[i] == AsciiLower(ConfirmToken[i]) || t[i] == AsciiUpper(ConfirmToken[i])
    ensures Classify(pre + t + post) == Confirm
  {
    ConfirmTokenMatches(t);
    TrimPadded(pre, t, post);
  }

  lemma ConfirmTokenMatches(t: string)
    requires |t| == |ConfirmToken| && forall i :: 0 <= i < |t| ==> t[i] == ConfirmToken[i] || t[i] == AsciiLower(ConfirmToken[i]) || t[i] == AsciiUpper(ConfirmToken[i])
    ensures IsConfirmToken(t) && !IsWhitespace(t[0]) && !IsWhitespace(t[|t| - 1])
  {
    assert ConfirmToken == ['E', 'n', 'v', 'i', 'a', 'd', 'o'];
    assert t[0] == 'E' || t[0] == 'e';
    assert t[6] == 'o' || t[6] == 'O';
  }

  // ---------------------------------------------------------------------------------------
  // The handshake as a state machine over values

  /** The screen's state: the armed point, the live reading shown in the dialog, the last
      positive reading, the committed results of this limb, and the saving flag. */
  datatype Probe = Probe(armed: int, live: int, lastValid: int, results: PointMap, saving: bool)

  /** The state of a freshly opened screen. */
  const Initial: Probe := Probe(NoPoint, 0, 0, map[], false)

  /** The invariant of a screen with `n` points: the armed index is a point or none, the last
      valid reading is never negative, and every result sits on a point and is a positive level. */
  predicate ValidProbe(s: Probe, n: nat) {
    && NoPoint <= s.armed < n
    && s.lastValid >= 0
    && forall k :: k in s.results ==> 0 <= k < n && s.results[k] > 0
  }

  /** `onPointSelect(index)`: when not saving, arm the point and zero both readings. */
  function Select(s: Probe, index: int): (r: Probe)
    ensures s.saving ==> r == s
    ensures !s.saving ==> r.armed == index && r.live == 0 && r.lastValid == 0
    ensures r.results == s.results && r.saving == s.saving
  {
    if s.saving then s else s.(armed := index, live := 0, lastValid := 0)
  }

  /** `onCloseMeasurement`: disarm, keeping everything else. */
  function Close(s: Probe): (r: Probe)
    ensures r.armed == NoPoint && r.results == s.results && r.lastValid == s.lastValid
  {
    s.(armed := NoPoint)
  }

  /** `onDataReceived` for a classified line. */
  function Step(s: Probe, p: Payload): (r: Probe)
    ensures r.saving == s.saving
    ensures forall k :: k in s.results && k != s.armed ==> k in r.results && r.results[k] == s.results[k]
    ensures r.results.Keys <= s.results.Keys + {s.armed}
    ensures r.results != s.results ==> p == Confirm && s.armed != NoPoint && r.armed == NoPoint
    ensures p == Other ==> r == s
    ensures p.Number? ==> r.armed == s.armed && r.results == s.results && r.live == p.value
    ensures p == Confirm && s.armed != NoPoint && s.lastValid > 0 ==>
              r.results == s.results[s.armed := s.lastValid] && r.armed == NoPoint
              && r.live == s.live && r.lastValid == s.lastValid
  {
    match p
    case Confirm =>
      if s.armed != NoPoint && s.lastValid > 0 then
        s.(results := s.results[s.armed := s.lastValid], armed := NoPoint)
      else s
    case Number(v) =>
      s.(live := v, lastValid := if v > 0 then v else s.lastValid)
    case Other => s
  }

  /** The measurement dialog is on screen. */
  predicate DialogVisible(s: Probe) { s.armed != NoPoint && !s.saving }

  /** The save button is enabled. */
  predicate SaveEnabled(s: Probe) { !s.saving && |s.results| > 0 }

  /** A stream of probe lines processed in arrival order. */
  function Run(s: Probe, ps: seq<Payload>): Probe
    decreases |ps|
  {
    if ps == [] then s else Run(Step(s, ps[0]), ps[1..])
  }

  /** The probe's readings as payloads. */
  function Readings(vs: seq<int>): (ps: seq<Payload>)
    ensures |ps| == |vs| && forall i :: 0 <= i < |vs| ==> ps[i] == Number(vs[i])
  {
    if vs == [] then [] else [Number(vs[0])] + Readings(vs[1..])
  }

  /** The last positive value of `vs`, or `d` when there is none. */
  function LastPositiveOr(vs: seq<int>, d: int): (r: int)
    ensures r == d || exists i :: 0 <= i < |vs| && vs[i] > 0 && r == vs[i]
  {
    if vs == [] then d else LastPositiveOr(vs[1..], if vs[0] > 0 then vs[0] else d)
  }

  lemma {:induction false} RunAppend(s: Probe, a: seq<Payload>, b: seq<Payload>)
    ensures Run(s, a + b) == Run(Run(s, a), b)
    decreases |a|
  {
    if a == [] {
      assert a + b == b;
    } else {
      assert (a + b)[1..] == a[1..] + b;
      RunAppend(Step(s, a[0]), a[1..], b);
    }
  }

  /** Invalid states are never reached: every step keeps the invariant. */
  lemma {:induction false} RunKeepsValid(s: Probe, ps: seq<Payload>, n: nat)
    requires ValidProbe(s, n)
    ensures ValidProbe(Run(s, ps), n)
    decreases |ps|
  {
    if ps != [] {
      RunKeepsValid(Step(s, ps[0]), ps[1..], n);
    }
  }

  /** Committed results are never lost while measuring: the set of measured points only grows. */
  lemma {:induction false} RunKeepsMeasuredPoints(s: Probe, ps: seq<Payload>)
    ensures s.results.Keys <= Run(s, ps).results.Keys
    decreases |ps|
  {
    if ps != [] {
      RunKeepsMeasuredPoints(Step(s, ps[0]), ps[1..]);
    }
  }

  /** A run of readings leaves the armed point and the results alone; the live value is the
      last reading and the last valid value the last positive one. */
  lemma {:induction false} RunReadings(s: Probe, vs: seq<int>)
    requires vs != []
    ensures Run(s, Readings(vs)) == s.(live := vs[|vs| - 1], lastValid := LastPositiveOr(vs, s.lastValid))
    decreases |vs|
  {
    var s' := Step(s, Number(vs[0]));
    assert Readings(vs)[1..] == Readings(vs[1..]);
    if |vs| > 1 {
      RunReadings(s', vs[1..]);
    }
  }

  /** The last non-zero reading wins: on an armed point, readings followed by the confirm token
      commit the last positive reading to that point (overwriting an earlier result) and disarm;
      if no reading was positive and none was kept from before, nothing is committed and the
      point stays armed. */
  lemma LastNonZeroWins(s: Probe, vs: seq<int>)
    requires s.armed != NoPoint && vs != []
    ensures var r := Run(s, Readings(vs) + [Confirm]);
            var v := LastPositiveOr(vs, s.lastValid);
            && (v > 0 ==> r.results == s.results[s.armed := v] && r.armed == NoPoint)
            && (v <= 0 ==> r.results == s.results && r.armed == s.armed)
  {
    RunAppend(s, Readings(vs), [Confirm]);
    RunReadings(s, vs);
  }

  /** The confirm token with no point armed, or before any positive reading, changes nothing. */
  lemma ConfirmWithoutReading(s: Probe)
    requires s.armed == NoPoint || s.lastValid <= 0
    ensures Step(s, Confirm) == s
  {
  }

  /** Committing a point closes the dialog and enables the save button. */
  lemma CommitClosesDialog(s: Probe)
    requires s.armed != NoPoint && s.lastValid > 0 && !s.saving
    ensures !DialogVisible(Step(s, Confirm)) && SaveEnabled(Step(s, Confirm))
    ensures DialogVisible(s)
  {
  }

  /** After selecting a point the dialog shows (unless saving) and its results are untouched;
      after closing it, it does not show. */
  lemma SelectOpensDialog(s: Probe, index: int)
    requires index != NoPoint
    ensures DialogVisible(Select(s, index)) <==> !s.saving
    ensures !DialogVisible(Close(s))
  {
  }

  /** A single digit line is read as that digit's level. */
  lemma ClassifyDigit(c: char)
    requires IsDigit(c)
    ensures Classify([c]) == Number(DigitValue(c))
  {
    var t := [c];
    assert DigitsValue(t) == DigitValue(c) by {
      assert t[..0] == [];
    }
    ParseIntOfDigits(t);
    assert [] + t + [] == t;
    TrimPadded([], t, []);
    assert !IsConfirmToken(t);
  }

  lemma ExampleConfirm()
    ensures Classify("Enviado") == Confirm
  {
    assert "Enviado" == [] + "Enviado" + [];
    ClassifyConfirm([], "Enviado", []);
  }

  lemma ExampleLine1() ensures Classify("1") == Number(1) { ClassifyDigit('1'); }
  lemma ExampleLine2() ensures Classify("2") == Number(2) { ClassifyDigit('2'); }
  lemma ExampleLine3() ensures Classify("3") == Number(3) { ClassifyDigit('3'); }
  lemma ExampleLine0() ensures Classify("0") == Number(0) { ClassifyDigit('0'); }

  /** The lines "1", "2", "3", "0", "Enviado" are three positive readings, a zero and the confirm. */
  lemma ExampleLines()
    ensures Classify("1") == Number(1) && Classify("2") == Number(2) && Classify("3") == Number(3)
    ensures Classify("0") == Number(0) && Classify("Enviado") == Confirm
  {
    ExampleLine1();
    ExampleLine2();
    ExampleLine3();
    ExampleLine0();
    ExampleConfirm();
  }

  /** Last non-zero wins on the probe session "1", "2", "3", "0", "Enviado" (classified by
      `ExampleLines`): after a point is selected, level 3 is committed to it. */
  lemma ExampleSession(s: Probe, index: int)
    requires !s.saving && 0 <= index
    ensures Run(Select(s, index), [Number(1), Number(2), Number(3), Number(0), Confirm]).results == s.results[index := 3]
  {
    var vs := [1, 2, 3, 0];
    var rs := Readings(vs);
    assert rs == [Number(1), Number(2), Number(3), Number(0)] by {
      assert |rs| == 4 && rs[0] == Number(1) && rs[1] == Number(2) && rs[2] == Number(3) && rs[3] == Number(0);
    }
    assert LastPositiveOr(vs, 0) == 3;
    assert rs + [Confirm] == [Number(1), Number(2), Number(3), Number(0), Confirm];
    LastNonZeroWins(Select(s, index), vs);
  }

  // ---------------------------------------------------------------------------------------
  // The screen

  class TestSession {
    var activePointIndex: int
    var currentBleValue: int
    var lastValidValue: int
    var resultsMap: PointMap
    var isSaving: bool
    const bodyPart: string

    function State(): Probe
      reads this
    {
      Probe(activePointIndex, currentBleValue, lastValidValue, resultsMap, isSaving)
    }

    ghost predicate Valid()
      reads this
    {
      ValidProbe(State(), PointCount(bodyPart))
    }

    /** `onCreate`: the body part comes from the launching intent, defaulting to the right hand. */
    constructor (bodyPartExtra: Option<string>)
      ensures bodyPart == bodyPartExtra.GetOr(DefaultBodyPart)
      ensures State() == Initial && Valid()
    {
      bodyPart := bodyPartExtra.GetOr(DefaultBodyPart);
      activePointIndex := NoPoint;
      currentBleValue := 0;
      lastValidValue := 0;
      resultsMap := map[];
      isSaving := false;
    }

    /** A tap on one of the drawing's points. */
    method SelectPoint(index: int)
      requires Valid() && 0 <= index < PointCount(bodyPart)
      modifies this
      ensures State() == Select(old(State()), index) && Valid()
    {
      if !isSaving {
        activePointIndex := index;
        currentBleValue := 0;
        lastValidValue := 0;
      }
    }

    /** The measurement dialog's close action. */
    method CloseMeasurement()
      requires Valid()
      modifies this
      ensures State() == Close(old(State())) && Valid()
    {
      activePointIndex := NoPoint;
    }

    /** One line received from the probe. */
    method OnDataReceived(data: string)
      requires Valid()
      modifies this
      ensures State() == Step(old(State()), Classify(data)) && Valid()
      ensures Classify(data) == Other ==> State() == old(State())
    {
      var cleanData := Trim(data);
      if IsConfirmToken(cleanData) {
        var finalValue := lastValidValue;
        var currentIndex := activePointIndex;
        if currentIndex != NoPoint && finalValue > 0 {
          resultsMap := resultsMap[currentIndex := finalValue];
          activePointIndex := NoPoint;
        }
      } else {
        var value := ParseInt(cleanData);
        if value.Some? {
          if value.value > 0 {
            lastValidValue := value.value;
          }
          currentBleValue := value.value;
        }
      }
    }

    /** `saveResultsToCache`: refused while no point is measured; otherwise the limb's results
        are stored in the session cache under this body part, leaving the other limbs as they were. */
    method SaveResultsToCache(cache: SessionCache) returns (saved: bool)
      modifies cache
      ensures saved <==> |resultsMap| > 0
      ensures saved ==> cache.results == old(cache.results)[bodyPart := resultsMap]
      ensures !saved ==> cache.results == old(cache.results)
    {
      if |resultsMap| == 0 {
        return false;
      }
      cache.Put(bodyPart, resultsMap);
      return true;
    }
  }
}
