/** CPF entry on the home screen: the search field and the new-patient dialog share one input
    filter (digits only, an edit that would exceed eleven digits is refused), a search runs
    only for a non-empty CPF, a new patient is confirmed only with a name and a full CPF, and
    the patient list shows a full CPF as `XXX.XXX.XXX-XX`. */
module Home {
  import opened Text

  const CpfLength := 11

  /** What the field holds: at most eleven digits. */
  predicate IsFieldValue(cpf: string) {
    AllDigits(cpf) && |cpf| <= CpfLength
  }

  /** The field after an edit: the typed text's digits, unless there are more than eleven of
      them, in which case the edit is refused. */
  function FilterCpf(previous: string, typed: string): string {
    var digits := DigitsOnly(typed);
    if |digits| <= CpfLength then digits else previous
  }

  /** The filter keeps exactly the digits, in order: filtering distributes over
      concatenation. */
  lemma {:induction false} DigitsOnlyAppend(a: string, b: string)
    ensures DigitsOnly(a + b) == DigitsOnly(a) + DigitsOnly(b)
    decreases |a|
  {
    if a == [] {
      assert a + b == b;
    } else {
      assert (a + b)[1..] == a[1..] + b;
      DigitsOnlyAppend(a[1..], b);
    }
  }

  /** Every edit keeps the field a value of at most eleven digits: an acceptable edit takes
      the typed digits whole, a too-long one leaves the field as it was (never truncated). */
  lemma FilterKeepsField(previous: string, typed: string)
    requires IsFieldValue(previous)
    ensures var r := FilterCpf(previous, typed);
            && IsFieldValue(r)
            && (r == DigitsOnly(typed) || r == previous)
            && (|DigitsOnly(typed)| > CpfLength ==> r == previous)
  {
  }

  /** Typing one more character: a non-digit changes nothing, and a digit is appended as long
      as the field is not yet full. */
  lemma TypeOneCharacter(previous: string, c: char)
    requires IsFieldValue(previous)
    ensures !IsDigit(c) ==> FilterCpf(previous, previous + [c]) == previous
    ensures IsDigit(c) && |previous| < CpfLength ==> FilterCpf(previous, previous + [c]) == previous + [c]
    ensures IsDigit(c) && |previous| == CpfLength ==> FilterCpf(previous, previous + [c]) == previous
  {
    DigitsOnlyAppend(previous, [c]);
    assert [c][1..] == [];
  }

  /** The CPF field of either dialog. */
  class CpfField {
    var value: string

    ghost predicate Valid()
      reads this
    {
      IsFieldValue(value)
    }

    /** The search field starts empty; the new-patient dialog starts from the searched CPF. */
    constructor (initial: string)
      requires IsFieldValue(initial)
      ensures value == initial && Valid()
    {
      value := initial;
    }

    /** `onValueChange`. */
    method OnValueChange(typed: string)
      requires Valid()
      modifies this
      ensures value == FilterCpf(old(value), typed) && Valid()
    {
      var numbersOnly := DigitsOnly(typed);
      if |numbersOnly| <= CpfLength {
        value := numbersOnly;
      }
    }
  }

  /** The search button looks the patient up only for a non-empty CPF. */
  predicate ShouldSearch(cpf: string) {
    cpf != ""
  }

  /** The new-patient dialog confirms only with a name and a complete CPF. */
  predicate CanConfirmNewPatient(name: string, cpf: string) {
    name != "" && |cpf| == CpfLength
  }

  /** The mask the patient list applies. */
  function CpfMask(cpf: string): (r: string)
    ensures |cpf| == CpfLength ==> |r| == 14 && r[3] == '.' && r[7] == '.' && r[11] == '-'
    ensures |cpf| != CpfLength ==> r == cpf
  {
    if |cpf| == CpfLength then cpf[0..3] + "." + cpf[3..6] + "." + cpf[6..9] + "-" + cpf[9..11] else cpf
  }

  /** Removing the punctuation from a masked CPF gives the CPF back. */
  lemma MaskRoundTrip(cpf: string)
    requires AllDigits(cpf) && |cpf| == CpfLength
    ensures DigitsOnly(CpfMask(cpf)) == cpf
  {
    var a, b, c, d := cpf[0..3], cpf[3..6], cpf[6..9], cpf[9..11];
    assert CpfMask(cpf) == a + ['.'] + b + ['.'] + c + ['-'] + d;
    DropSeparators(a, b, c, d);
    assert cpf == a + b + c + d;
  }

  /** Digit groups joined by the mask's punctuation filter back to the groups joined. */
  lemma DropSeparators(a: string, b: string, c: string, d: string)
    requires AllDigits(a) && AllDigits(b) && AllDigits(c) && AllDigits(d)
    ensures DigitsOnly(a + ['.'] + b + ['.'] + c + ['-'] + d) == a + b + c + d
  {
    DropSeparator(a + ['.'] + b + ['.'] + c, '-', d);
    DropSeparator(a + ['.'] + b, '.', c);
    DropSeparator(a, '.', b);
  }

  /** A non-digit between two pieces is dropped by the filter. */
  lemma DropSeparator(x: string, sep: char, y: string)
    requires !IsDigit(sep)
    ensures DigitsOnly(x + [sep] + y) == DigitsOnly(x) + DigitsOnly(y)
  {
    DigitsOnlyAppend(x + [sep], y);
    DigitsOnlyAppend(x, [sep]);
    SeparatorDropped(sep);
  }

  lemma SeparatorDropped(sep: char)
    requires !IsDigit(sep)
    ensures DigitsOnly([sep]) == []
  {
    assert [sep][1..] == [];
  }

  /** Two different field values are never shown alike. */
  lemma MaskInjective(a: string, b: string)
    requires IsFieldValue(a) && IsFieldValue(b) && CpfMask(a) == CpfMask(b)
    ensures a == b
  {
    if |a| == CpfLength && |b| == CpfLength {
      MaskRoundTrip(a);
      MaskRoundTrip(b);
    }
  }

  /** What the home screen hands on: a search runs for any typed CPF, and a confirmed new
      patient always has exactly eleven digits, shown fully masked. */
  lemma ConfirmedCpfIsComplete(name: string, cpf: string)
    requires IsFieldValue(cpf)
    ensures ShouldSearch(cpf) <==> |cpf| > 0
    ensures CanConfirmNewPatient(name, cpf) ==>
              AllDigits(cpf) && |cpf| == CpfLength && DigitsOnly(CpfMask(cpf)) == cpf && |CpfMask(cpf)| == 14
  {
    if CanConfirmNewPatient(name, cpf) {
      MaskRoundTrip(cpf);
    }
  }
}
