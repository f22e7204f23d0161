/** The limb selection screen (both SelectionActivity copies): the four limb cards over the
    shared session cache, the redo dialog, the deformity flag and the finalise gate; and the
    tables the session report is drawn from (summary grade, grade texts, level descriptions,
    point colour and order, limb labels). */
module Selection {
  import opened Wrappers
  import opened Text
  import opened Session
  import opened Sorting
  import Cloud
  import Sets

  const RightHand: string := "mao_direita"
  const LeftHand: string := "mao_esquerda"
  const RightFoot: string := "pe_direito"
  const LeftFoot: string := "pe_esquerdo"

  /** The body parts the four cards test. */
  const Limbs: set<string> := {RightHand, LeftHand, RightFoot, LeftFoot}

  /** `completedParts.size >= 4`: the finalise button is enabled. */
  predicate AllCompleted(completed: set<string>) {
    |completed| >= 4
  }

  lemma LimbsCount()
    ensures |Limbs| == 4
  {
    assert RightHand[0] != LeftFoot[0] && LeftHand[0] != RightFoot[0];
    assert RightHand[4] != LeftHand[4] && RightFoot[3] != LeftFoot[3];
  }

  /** Every card is completed iff the gate opens: with only the four limbs in the cache,
      four keys means all four limbs. */
  lemma AllCompletedIffEveryLimb(completed: set<string>)
    requires completed <= Limbs
    ensures AllCompleted(completed) <==> completed == Limbs
  {
    LimbsCount();
    if AllCompleted(completed) && completed != Limbs {
      Sets.NonEmpty(Limbs - completed);
      assert false;
    }
  }

  /** `onCreate`: the cache is emptied on a fresh start and kept when the screen is
      re-created from saved state. */
  method OnCreate(cache: SessionCache, restored: bool)
    modifies cache
    ensures restored ==> cache.results == old(cache.results)
    ensures !restored ==> cache.results == map[]
  {
    if !restored {
      cache.Clear();
    }
  }

  /** The `SelectionScreen` composable's state. */
  class SelectionScreen {
    var completedParts: set<string>
    var showRedoDialog: Option<string>
    var showFinalDialog: bool
    var hasDeformities: bool

    constructor (cache: SessionCache)
      ensures completedParts == cache.results.Keys
      ensures showRedoDialog == None && !showFinalDialog && !hasDeformities
    {
      completedParts := cache.results.Keys;
      showRedoDialog := None;
      showFinalDialog := false;
      hasDeformities := false;
    }

    /** `finalize` button: `enabled = allCompleted`. */
    predicate FinalizeEnabled()
      reads this
    {
      AllCompleted(completedParts)
    }

    /** The `ON_RESUME` observer: completed parts are re-read from the cache. */
    method OnResume(cache: SessionCache)
      modifies this
      ensures completedParts == cache.results.Keys
      ensures showRedoDialog == old(showRedoDialog) && showFinalDialog == old(showFinalDialog)
      ensures hasDeformities == old(hasDeformities)
    {
      completedParts := cache.results.Keys;
    }

    /** A limb card's click: a completed part opens the redo dialog; any other part
        navigates straight to its test (`Some(part)`). */
    method TapCard(part: string) returns (navigateTo: Option<string>)
      modifies this
      ensures part in completedParts ==> navigateTo == None && showRedoDialog == Some(part)
      ensures part !in completedParts ==> navigateTo == Some(part) && showRedoDialog == old(showRedoDialog)
      ensures completedParts == old(completedParts) && showFinalDialog == old(showFinalDialog)
      ensures hasDeformities == old(hasDeformities)
    {
      if part in completedParts {
        showRedoDialog := Some(part);
        navigateTo := None;
      } else {
        navigateTo := Some(part);
      }
    }

    /** The redo dialog's confirm button: the part's entry leaves the cache, the dialog
        closes, completed parts are re-read and the part's test opens. */
    method ConfirmRedo(cache: SessionCache) returns (navigateTo: Option<string>)
      requires showRedoDialog.Some?
      modifies this, cache
      ensures cache.results == old(cache.results) - {old(showRedoDialog).value}
      ensures completedParts == cache.results.Keys && old(showRedoDialog).value !in completedParts
      ensures navigateTo == old(showRedoDialog) && showRedoDialog == None
      ensures showFinalDialog == old(showFinalDialog) && hasDeformities == old(hasDeformities)
    {
      var part := showRedoDialog.value;
      cache.Remove(part);
      showRedoDialog := None;
      completedParts := cache.results.Keys;
      navigateTo := Some(part);
    }

    /** The redo dialog's cancel button, or dismissing it. */
    method DismissRedo()
      modifies this
      ensures showRedoDialog == None
      ensures completedParts == old(completedParts) && showFinalDialog == old(showFinalDialog)
      ensures hasDeformities == old(hasDeformities)
    {
      showRedoDialog := None;
    }

    /** The deformity card's click. */
    method ToggleDeformities()
      modifies this
      ensures hasDeformities == !old(hasDeformities)
      ensures completedParts == old(completedParts) && showRedoDialog == old(showRedoDialog)
      ensures showFinalDialog == old(showFinalDialog)
    {
      hasDeformities := !hasDeformities;
    }

    /** The enabled finalise button: the whole cache is saved as one batch with the current
        deformity flag, and the final dialog opens. */
    method Finalize(cache: SessionCache, uid: Option<string>, sessionId: string, patientCpf: string,
                    patientName: string, now: int)
      returns (r: Result<seq<Cloud.Write>>)
      requires FinalizeEnabled()
      modifies this
      ensures showFinalDialog
      ensures completedParts == old(completedParts) && showRedoDialog == old(showRedoDialog)
      ensures hasDeformities == old(hasDeformities)
      ensures uid.None? <==> r == Failure(Cloud.NotSignedIn)
      ensures uid.Some? ==> r.Success? && Cloud.IsBatchFor(
        Cloud.Header(uid.value, sessionId, patientCpf, patientName, hasDeformities, now), cache.results, r.value)
    {
      r := Cloud.SaveCompleteSession(uid, sessionId, patientCpf, patientName, cache.results, hasDeformities, now);
      showFinalDialog := true;
    }
  }

  // ---------------------------------------------------------------------------------------
  // Report tables

  /** `(it["gif"] as? Long)?.toInt() ?: 0` for one stored record. */
  function RecordGif(gif: Option<int>): int {
    ToInt32(gif.GetOr(0))
  }

  /** `data.maxOfOrNull { … } ?: 0`: the largest record grade, 0 when there is no record. */
  function SummaryGrade(gifs: seq<Option<int>>): (g: int)
    ensures gifs == [] ==> g == 0
    ensures forall i :: 0 <= i < |gifs| ==> RecordGif(gifs[i]) <= g
    ensures gifs != [] ==> exists i :: 0 <= i < |gifs| && RecordGif(gifs[i]) == g
  {
    if gifs == [] then 0
    else if |gifs| == 1 then RecordGif(gifs[0])
    else
      var rest := SummaryGrade(gifs[1..]);
      assert forall i :: 1 <= i < |gifs| ==> gifs[i] == gifs[1..][i - 1];
      if RecordGif(gifs[0]) >= rest then RecordGif(gifs[0]) else rest
  }

  /** The grades of a saved batch, as the report reads them back. */
  function BatchGifs(writes: seq<Cloud.Write>): seq<Option<int>> {
    seq(|writes|, i requires 0 <= i < |writes| => Some(writes[i].record.gif))
  }

  /** The grade the report reads back for one write of a saved batch is that limb's grade. */
  lemma GifOfWrite(h: Cloud.Header, allResults: map<string, PointMap>, writes: seq<Cloud.Write>, i: int)
    requires Cloud.IsBatchFor(h, allResults, writes) && 0 <= i < |writes|
    ensures writes[i].record.bodyPart in allResults
    ensures RecordGif(BatchGifs(writes)[i]) == Cloud.LimbGrade(allResults[writes[i].record.bodyPart], h.hasDeformities)
  {
    var part := writes[i].record.bodyPart;
    assert writes[i] == Cloud.LimbWrite(h, part, allResults[part]);
  }

  /** A report over a saved session: its grade is a WHO grade, 2 exactly when deformities
      were flagged, and at least 1 when some limb reached level 5. */
  lemma SummaryOfSavedSession(h: Cloud.Header, allResults: map<string, PointMap>, writes: seq<Cloud.Write>)
    requires Cloud.IsBatchFor(h, allResults, writes) && allResults != map[]
    ensures var g := SummaryGrade(BatchGifs(writes));
            && 0 <= g <= 2
            && (g == 2 <==> h.hasDeformities)
            && (forall part, p :: part in allResults && p in allResults[part] && allResults[part][p] >= Cloud.ProtectiveLossLevel ==> g >= 1)
  {
    var gifs := BatchGifs(writes);
    var g := SummaryGrade(gifs);
    Sets.NonEmpty(allResults.Keys);
    var part0 :| part0 in allResults;
    var i0 :| 0 <= i0 < |writes| && writes[i0].record.bodyPart == part0;
    GifOfWrite(h, allResults, writes, i0);
    forall i | 0 <= i < |writes| ensures 0 <= RecordGif(gifs[i]) <= 2 && (RecordGif(gifs[i]) == 2 <==> h.hasDeformities) {
      GifOfWrite(h, allResults, writes, i);
    }
    forall part, p | part in allResults && p in allResults[part] && allResults[part][p] >= Cloud.ProtectiveLossLevel
      ensures g >= 1
    {
      var i :| 0 <= i < |writes| && writes[i].record.bodyPart == part;
      GifOfWrite(h, allResults, writes, i);
    }
  }

  const PreservedText: string := "SENSIBILIDADE PRESERVADA (GRAU 0)"
  const RiskPrefix: string := "RISCO IDENTIFICADO (GRAU "

  /** The report's risk banner. */
  function RiskText(g: int): string {
    if g > 0 then RiskPrefix + IntToString(g) + ")" else PreservedText
  }

  /** The banner reads "preserved" exactly when the grade is not positive; otherwise the
      grade can be read back from it. */
  lemma RiskTextMeaning(g: int)
    ensures RiskText(g) == PreservedText <==> g <= 0
    ensures 0 < g <= IntMax ==>
              var t := RiskText(g);
              t[..|RiskPrefix|] == RiskPrefix && ParseInt(t[|RiskPrefix|..|t| - 1]) == Some(g)
  {
    if g > 0 {
      var t := RiskText(g);
      assert t[0] == 'R' && PreservedText[0] == 'S';
      assert t[|RiskPrefix|..|t| - 1] == IntToString(g);
    }
  }

  const Grade0Text: string := "Grau 0: Sensibilidade Preservada"
  const Grade1Text: string := "Grau 1: Perda de Sensibilidade Protetora"
  const Grade2Text: string := "Grau 2: Presença de Deformidades/Úlceras"

  /** `gifText` of the older report. */
  function GradeText(g: int): string {
    if g == 0 then Grade0Text else if g == 1 then Grade1Text else Grade2Text
  }

  /** The three labels are told apart by the grade digit, and every grade other than 0 and 1
      reads as grade 2. */
  lemma GradeTextMeaning(g: int)
    ensures GradeText(g)[5] == (if g == 0 then '0' else if g == 1 then '1' else '2')
    ensures GradeText(g) == Grade2Text <==> g != 0 && g != 1
  {
    assert Grade0Text[5] == '0' && Grade1Text[5] == '1' && Grade2Text[5] == '2';
  }

  /** The level description table of the report. */
  function LevelDescription(level: int): string {
    if level == 1 then "Verde (0,05g) - Normal"
    else if level == 2 then "Azul (0,2g) - Diminuída"
    else if level == 3 then "Violeta (2,0g) - Perda Protetora"
    else if level == 4 then "Vermelho (4,0g) - Perda Severa"
    else if level == 5 then "Laranja (10,0g) - Perda Profunda"
    else if level == 6 then "Magenta (300g) - Perda Total"
    else "Nível " + IntToString(level)
  }

  /** The six fixed descriptions: their lengths and first letters, and the letter that
      starts every other description. */
  lemma DescriptionShape(level: int)
    ensures var d := LevelDescription(level);
            && (level == 1 ==> |d| == 22 && d[0] == 'V')
            && (level == 2 ==> |d| == 23 && d[0] == 'A')
            && (level == 3 ==> |d| == 32 && d[0] == 'V')
            && (level == 4 ==> |d| == 30 && d[0] == 'V')
            && (level == 5 ==> |d| == 32 && d[0] == 'L')
            && (level == 6 ==> |d| == 28 && d[0] == 'M')
            && (!(1 <= level <= 6) ==> d[0] == 'N' && d[6..] == IntToString(level))
  {
  }

  /** No two levels share a description. */
  lemma LevelDescriptionInjective(a: int, b: int)
    requires LevelDescription(a) == LevelDescription(b)
    ensures a == b
  {
    DescriptionShape(a);
    DescriptionShape(b);
    if !(1 <= a <= 6) && !(1 <= b <= 6) {
      IntToStringInjective(a, b);
    }
  }

  /** `v.toString().toIntOrNull() ?: 0` for a stored point value. */
  function LevelOfStored(text: string): int {
    ParseInt(text).GetOr(0)
  }

  /** A level stored by the measurement screen is read back unchanged. */
  lemma LevelOfStoredRoundTrip(level: int)
    requires IntMin <= level <= IntMax
    ensures LevelOfStored(IntToString(level)) == level
  {
  }

  /** Text that is not a 32-bit integer reads as level 0, described as "Nível 0". */
  lemma LevelOfStoredDefault(text: string)
    requires ParseInt(text).None?
    ensures LevelOfStored(text) == 0 && LevelDescription(LevelOfStored(text)) == "Nível 0"
  {
  }

  /** `pointColor`: a point is drawn red from level 3 up. */
  predicate PointIsRed(level: int) {
    level >= 3
  }

  /** On the six-level scale, the red points are exactly the levels described as a loss. */
  lemma RedPointsAreLosses(level: int)
    requires 1 <= level <= 6
    ensures PointIsRed(level) <==> Contains(LevelDescription(level), "Perda")
  {
    if level <= 2 {
      NoLossText(level);
    } else {
      LossText(level);
    }
  }

  lemma NoLossText(level: int)
    requires level == 1 || level == 2
    ensures !Contains(LevelDescription(level), "Perda")
  {
    NotContainsWithoutFirst(LevelDescription(level), "Perda");
  }

  lemma LossText(level: int)
    requires 3 <= level <= 6
    ensures Contains(LevelDescription(level), "Perda")
  {
    var d := LevelDescription(level);
    if level == 3 || level == 6 {
      assert d[17..22] == "Perda";
      assert OccursAt(d, "Perda", 17);
    } else {
      assert d[18..23] == "Perda";
      assert OccursAt(d, "Perda", 18);
    }
  }

  /** Kotlin's `String.compareTo(...) <= 0` on the report's point keys. */
  predicate KeyLe(a: string, b: string) {
    if a == [] then true
    else if b == [] then false
    else if a[0] != b[0] then a[0] < b[0]
    else KeyLe(a[1..], b[1..])
  }

  lemma {:induction false} KeyLeTotal(a: string, b: string)
    ensures KeyLe(a, b) || KeyLe(b, a)
  {
    if a != [] && b != [] && a[0] == b[0] {
      KeyLeTotal(a[1..], b[1..]);
    }
  }

  lemma {:induction false} KeyLeTransitive(a: string, b: string, c: string)
    requires KeyLe(a, b) && KeyLe(b, c)
    ensures KeyLe(a, c)
  {
    if a != [] && b != [] && c != [] && a[0] == b[0] && b[0] == c[0] {
      KeyLeTransitive(a[1..], b[1..], c[1..]);
    }
  }

  lemma {:induction false} KeyLeAntisymmetric(a: string, b: string)
    requires KeyLe(a, b) && KeyLe(b, a)
    ensures a == b
  {
    if a != [] && b != [] {
      KeyLeAntisymmetric(a[1..], b[1..]);
      assert a == [a[0]] + a[1..] && b == [b[0]] + b[1..];
    }
  }

  lemma KeyLeIsPreorder()
    ensures TotalPreorder(KeyLe)
  {
    forall a, b ensures KeyLe(a, b) || KeyLe(b, a) {
      KeyLeTotal(a, b);
    }
    forall a, b, c | KeyLe(a, b) && KeyLe(b, c) ensures KeyLe(a, c) {
      KeyLeTransitive(a, b, c);
    }
  }

  /** The stored point keys are the stringified point indices; for single digits the text
      order is the numeric order. */
  lemma DigitKeysInNumericOrder(a: int, b: int)
    requires 0 <= a < 10 && 0 <= b < 10
    ensures KeyLe(IntToString(a), IntToString(b)) <==> a <= b
  {
    var sa, sb := IntToString(a), IntToString(b);
    assert |sa| == 1 && |sb| == 1 by {
      assert sa == NatToString(a) && sb == NatToString(b);
    }
  }

  /** The keys of a point map in some order. */
  ghost function KeysOf(m: map<string, int>): (ks: seq<string>)
    ensures |ks| == |m| && (forall k :: k in ks <==> k in m)
    ensures forall i, j :: 0 <= i < j < |ks| ==> ks[i] != ks[j]
  {
    if m == map[] then []
    else
      Sets.NonEmpty(m.Keys);
      var k :| k in m;
      var rest := KeysOf(m - {k});
      [k] + rest
  }

  /** The keys of a point map in `toSortedMap()` order: ascending and without repeats. */
  ghost function SortedKeys(m: map<string, int>): (ks: seq<string>)
    ensures |ks| == |m| && (forall k :: k in ks <==> k in m)
    ensures forall i, j :: 0 <= i < j < |ks| ==> KeyLe(ks[i], ks[j]) && ks[i] != ks[j]
  {
    var keys := KeysOf(m);
    KeyLeIsPreorder();
    var sorted := SortBy(keys, KeyLe);
    forall k ensures k in sorted <==> k in keys {
      assert k in sorted <==> k in multiset(sorted);
      assert k in keys <==> k in multiset(keys);
    }
    PermutationDistinct(keys, sorted);
    sorted
  }

  /** `points?.toSortedMap()?.forEach { … }`: the points of a record in key order. */
  ghost function SortedPoints(m: map<string, int>): seq<(string, int)> {
    var ks := SortedKeys(m);
    seq(|ks|, i requires 0 <= i < |ks| => (ks[i], m[ks[i]]))
  }

  /** The report lists every point of the record once, with its stored value, in ascending
      key order. */
  lemma SortedPointsListsEachPointOnce(m: map<string, int>)
    ensures var ps := SortedPoints(m);
            && |ps| == |m|
            && (forall i :: 0 <= i < |ps| ==> ps[i].0 in m && ps[i].1 == m[ps[i].0])
            && (forall k :: k in m ==> (k, m[k]) in ps)
            && (forall i, j :: 0 <= i < j < |ps| ==> KeyLe(ps[i].0, ps[j].0) && ps[i].0 != ps[j].0)
  {
    var ks := SortedKeys(m);
    var ps := SortedPoints(m);
    SortedPointsUnfold(m);
    forall k | k in m ensures (k, m[k]) in ps {
      var i :| 0 <= i < |ks| && ks[i] == k;
      assert ps[i] == (k, m[k]);
    }
  }

  lemma SortedPointsUnfold(m: map<string, int>)
    ensures var ks := SortedKeys(m);
            var ps := SortedPoints(m);
            |ps| == |ks| && forall i :: 0 <= i < |ps| ==> ps[i] == (ks[i], m[ks[i]])
  {
  }

  /** The old report's limb label: `(bodyPart as? String)?.replace("_", " ")?.uppercase() ?: "MEMBRO"`. */
  function LimbLabel(bodyPart: Option<string>): string {
    if bodyPart.Some? then ReplaceAndUpper(bodyPart.value, '_', ' ') else "MEMBRO"
  }

  /** The new report's limb label: `bodyPart.toString()`, so a missing part prints as "NULL". */
  function PartName(bodyPart: Option<string>): string {
    ReplaceAndUpper(bodyPart.GetOr("null"), '_', ' ')
  }

  /** Both labels keep the length of the part name, contain no underscore and no lower-case
      letter, and spell the part name otherwise. */
  lemma LimbLabelShape(bodyPart: string)
    ensures var l := LimbLabel(Some(bodyPart));
            && l == PartName(Some(bodyPart)) && |l| == |bodyPart|
            && (forall i :: 0 <= i < |l| ==> l[i] != '_' && !('a' <= l[i] <= 'z'))
            && (forall i :: 0 <= i < |l| && bodyPart[i] != '_' ==> l[i] == AsciiUpper(bodyPart[i]))
            && (forall i :: 0 <= i < |l| && bodyPart[i] == '_' ==> l[i] == ' ')
  {
  }
}
