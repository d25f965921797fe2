/** Spend caps: how amounts are typed and shown, when the form may be sent, what caps are in effect for
    an account, and what is announced before they change. Amounts are whole cents. */
module HardCaps {
  import opened Decimals
  import opened Wrappers

  const MAX_MINOR_AMOUNT := 1_000_000_000_000

  // ---------------------------------------------------------------------------
  // Amounts as text
  // ---------------------------------------------------------------------------

  function Padded(cents: nat): (s: string)
    requires cents < 100
    ensures |s| == 2 && AllDigits(s) && Value(s) == cents
  {
    var s := [Digit(cents / 10), Digit(cents % 10)];
    ShortValues(s);
    s
  }

  function FormatForInput(minor: nat): string {
    var whole, cents := minor / 100, minor % 100;
    if cents == 0 then Digits(whole) else Digits(whole) + "," + Padded(cents)
  }

  /** What trimming removes at either end. */
  predicate IsSpace(c: char) {
    var n := c as int;
    n in {9, 10, 11, 12, 13, 32, 0xa0, 0x1680, 0x2028, 0x2029, 0x202f, 0x205f, 0x3000, 0xfeff} || 0x2000 <= n <= 0x200a
  }

  predicate Blank(s: string) {
    forall i :: 0 <= i < |s| ==> IsSpace(s[i])
  }

  function Trim(s: string): string {
    if s != "" && IsSpace(s[0]) then Trim(s[1..])
    else if s != "" && IsSpace(s[|s| - 1]) then Trim(s[..|s| - 1])
    else s
  }

  /** The leading digits. */
  function Whole(s: string): (n: nat)
    ensures n <= |s| && AllDigits(s[..n]) && (n < |s| ==> !IsDigit(s[n]))
  {
    if s == "" || !IsDigit(s[0]) then 0
    else
      var n := Whole(s[1..]);
      assert s[..n + 1] == [s[0]] + s[1..][..n];
      1 + n
  }

  /** The cents behind the separator, filled up with zeros to two digits. */
  function Cents(fraction: string): (cents: nat)
    requires AllDigits(fraction) && |fraction| <= 2
    ensures cents < 100
  {
    var padded := if |fraction| == 0 then "00" else if |fraction| == 1 then fraction + "0" else fraction;
    ShortValues(padded);
    Value(padded)
  }

  /** Whether the trimmed text is one to fifteen digits and, behind a comma or a point, one or two. */
  predicate IsAmount(t: string) {
    var n := Whole(t);
    && 1 <= n <= 15
    && (n == |t|
        || ((t[n] == ',' || t[n] == '.') && 1 <= |t| - n - 1 <= 2 && AllDigits(t[n + 1..])))
  }

  function AmountOf(t: string): nat
    requires IsAmount(t)
  {
    var n := Whole(t);
    Value(t[..n]) * 100 + (if n == |t| then 0 else Cents(t[n + 1..]))
  }

  function Bounded(minor: nat): Option<nat> {
    if minor > MAX_MINOR_AMOUNT then None else Some(minor)
  }

  function ParseTrimmed(t: string): Option<nat> {
    if IsAmount(t) then Bounded(AmountOf(t)) else None
  }

  function Parse(input: string): Option<nat> {
    ParseTrimmed(Trim(input))
  }

  lemma {:induction false} WholeOfDigits(digits: string, rest: string)
    requires AllDigits(digits) && (rest == "" || !IsDigit(rest[0]))
    ensures Whole(digits + rest) == |digits|
  {
    if digits == "" {
      assert digits + rest == rest;
    } else {
      assert (digits + rest)[1..] == digits[1..] + rest && (digits + rest)[0] == digits[0];
      WholeOfDigits(digits[1..], rest);
    }
  }

  lemma FewDigits(whole: nat)
    requires whole <= MAX_MINOR_AMOUNT / 100
    ensures |Digits(whole)| <= 15
  {
    assert Power(3) == 1000 && Power(6) == 1000 * Power(3) && Power(9) == 1000 * Power(6)
      && Power(11) == 100 * Power(9);
    DigitsAreFew(whole, 11);
  }

  /** One digit counts tenths, two count hundredths. */
  function Hundredths(fraction: string): nat
    requires AllDigits(fraction) && |fraction| <= 2
  {
    match |fraction|
    case 0 => 0
    case 1 => 10 * Value(fraction)
    case _ => Value(fraction)
  }

  predicate IsNumeral(units: string, separator: string, fraction: string) {
    && AllDigits(units) && 1 <= |units| <= 15
    && ((separator == "" && fraction == "")
        || ((separator == "," || separator == ".") && AllDigits(fraction) && 1 <= |fraction| <= 2))
  }

  lemma CentsAreHundredths(fraction: string)
    requires AllDigits(fraction) && |fraction| <= 2
    ensures Cents(fraction) == Hundredths(fraction)
  {
    ShortValues(fraction);
    ShortValues("00");
    if |fraction| == 1 {
      ShortValues(fraction + "0");
    }
  }

  lemma Parts(units: string, separator: string, fraction: string)
    requires IsNumeral(units, separator, fraction)
    ensures var t := units + separator + fraction;
            && Whole(t) == |units| && t[..|units|] == units && !IsSpace(t[0]) && !IsSpace(t[|t| - 1])
            && (fraction == "" ==> |t| == |units|)
            && (fraction != "" ==>
                  |t| == |units| + 1 + |fraction| && t[|units|] == separator[0] && t[|units| + 1..] == fraction)
  {
    var t := units + separator + fraction;
    assert t == units + (separator + fraction);
    WholeOfDigits(units, separator + fraction);
    assert IsDigit(t[0]) && IsDigit(t[|t| - 1]);
  }

  lemma AmountText(t: string, units: string, separator: string, fraction: string)
    requires IsNumeral(units, separator, fraction) && t == units + separator + fraction
    ensures ParseTrimmed(t) == Bounded(100 * Value(units) + Hundredths(fraction))
    ensures t != "" && !IsSpace(t[0]) && !IsSpace(t[|t| - 1])
  {
    Parts(units, separator, fraction);
  }

  lemma {:induction false} TrimsTo(before: string, t: string, after: string)
    requires Blank(before) && Blank(after) && t != "" && !IsSpace(t[0]) && !IsSpace(t[|t| - 1])
    ensures Trim(before + t + after) == t
    decreases |before| + |after|
  {
    var s := before + t + after;
    if before != "" {
      assert s[0] == before[0] && s[1..] == before[1..] + t + after;
      TrimsTo(before[1..], t, after);
    } else if after != "" {
      assert s[0] == t[0] && s[|s| - 1] == after[|after| - 1] && s[..|s| - 1] == before + t + after[..|after| - 1];
      TrimsTo(before, t, after[..|after| - 1]);
    } else {
      assert s == t;
    }
  }

  /** What is read is what the text says: whole units before the comma or point, and behind it tenths or
      hundredths; blanks around it do not matter, and more than the maximum is not read. */
  lemma ParsedAmounts(before: string, units: string, separator: string, fraction: string, after: string)
    requires Blank(before) && Blank(after) && IsNumeral(units, separator, fraction)
    ensures Parse(before + (units + separator + fraction) + after) == Bounded(100 * Value(units) + Hundredths(fraction))
  {
    AmountText(units + separator + fraction, units, separator, fraction);
    TrimsTo(before, units + separator + fraction, after);
  }

  lemma {:induction false} TrimmedOff(s: string) returns (before: string, after: string)
    ensures s == before + Trim(s) + after && Blank(before) && Blank(after)
    decreases |s|
  {
    if s != "" && IsSpace(s[0]) {
      var inner;
      inner, after := TrimmedOff(s[1..]);
      before := [s[0]] + inner;
      assert s == [s[0]] + (inner + Trim(s) + after);
    } else if s != "" && IsSpace(s[|s| - 1]) {
      var inner;
      before, inner := TrimmedOff(s[..|s| - 1]);
      after := inner + [s[|s| - 1]];
      assert s == (before + Trim(s) + inner) + [s[|s| - 1]];
    } else {
      before, after := "", "";
    }
  }

  /** And nothing else is read: an input that is read is such a numeral between blanks, of at most the
      maximum. */
  lemma OnlyNumeralsAreRead(input: string)
    returns (before: string, units: string, separator: string, fraction: string, after: string)
    requires Parse(input).Some?
    ensures input == before + (units + separator + fraction) + after && Blank(before) && Blank(after)
    ensures IsNumeral(units, separator, fraction)
    ensures Parse(input).value == 100 * Value(units) + Hundredths(fraction) <= MAX_MINOR_AMOUNT
  {
    before, after := TrimmedOff(input);
    var t := Trim(input);
    var n := Whole(t);
    units := t[..n];
    separator, fraction := if n == |t| then "" else [t[n]], if n == |t| then "" else t[n + 1..];
    assert t == units + separator + fraction;
    CentsAreHundredths(fraction);
  }

  /** An amount shown in the form reads back as itself. */
  lemma FormattedAmountsReadBack(minor: nat)
    requires minor <= MAX_MINOR_AMOUNT
    ensures Parse(FormatForInput(minor)) == Some(minor)
  {
    var whole, cents := minor / 100, minor % 100;
    DigitsReadBack(whole);
    FewDigits(whole);
    var separator, fraction := if cents == 0 then "" else ",", if cents == 0 then "" else Padded(cents);
    var t := FormatForInput(minor);
    assert t == Digits(whole) + separator + fraction;
    AmountText(t, Digits(whole), separator, fraction);
    assert Trim(t) == t;
  }

  // ---------------------------------------------------------------------------
  // The form
  // ---------------------------------------------------------------------------

  datatype Amounts = Amounts(daily: nat, monthly: nat, ceiling: nat)

  datatype Envelope = Envelope(maxDaily: nat, maxMonthly: nat, maxCeiling: nat, minFloor: nat, currency: string)

  datatype FormValues = FormValues(daily: string, monthly: string, ceiling: string)

  datatype Problem = NotAnAmount | OverEnvelope | MonthlyBelowDaily | DailyOverCeiling

  datatype FormErrors = FormErrors(daily: Option<Problem>, monthly: Option<Problem>, ceiling: Option<Problem>)

  datatype Update = Update(amounts: Amounts, currency: string)

  const NO_ERRORS := FormErrors(None, None, None)

  /** The input is an amount of at most `max`. */
  predicate Within(input: string, max: nat) {
    Parse(input).Some? && Parse(input).value <= max
  }

  /** What the form asks of its three inputs. */
  predicate Sendable(v: FormValues, e: Envelope) {
    && Within(v.daily, e.maxDaily) && Within(v.monthly, e.maxMonthly) && Within(v.ceiling, e.maxCeiling)
    && Parse(v.daily).value <= Parse(v.monthly).value && Parse(v.daily).value <= Parse(v.ceiling).value
  }

  /** An input's own problem, leaving the others aside. */
  function OwnProblem(input: string, max: nat): Option<Problem> {
    var amount := Parse(input);
    if amount.None? then Some(NotAnAmount) else if amount.value > max then Some(OverEnvelope) else None
  }

  /** The form yields caps exactly when it is sendable, and then the ones typed, in the envelope's
      currency; otherwise it names a problem at a field that has it. */
  method ValidateCapsForm(v: FormValues, e: Envelope) returns (errors: FormErrors, caps: Option<Update>)
    ensures caps.Some? <==> Sendable(v, e)
    ensures caps.Some? <==> errors == NO_ERRORS
    ensures caps.Some? ==>
              caps.value == Update(Amounts(Parse(v.daily).value, Parse(v.monthly).value, Parse(v.ceiling).value),
                                   e.currency)
    ensures errors.ceiling == OwnProblem(v.ceiling, e.maxCeiling)
    ensures OwnProblem(v.monthly, e.maxMonthly).Some? ==> errors.monthly == OwnProblem(v.monthly, e.maxMonthly)
    ensures OwnProblem(v.daily, e.maxDaily).Some? ==> errors.daily == OwnProblem(v.daily, e.maxDaily)
    ensures errors.monthly == Some(MonthlyBelowDaily) <==>
            (OwnProblem(v.monthly, e.maxMonthly).None? && Parse(v.daily).Some?
             && Parse(v.monthly).value < Parse(v.daily).value)
    ensures errors.daily == Some(DailyOverCeiling) <==>
            (OwnProblem(v.daily, e.maxDaily).None? && OwnProblem(v.ceiling, e.maxCeiling).None?
             && Parse(v.ceiling).value < Parse(v.daily).value)
  {
    var daily, monthly, ceiling := Parse(v.daily), Parse(v.monthly), Parse(v.ceiling);
    errors := NO_ERRORS;
    if daily.None? {
      errors := errors.(daily := Some(NotAnAmount));
    } else if daily.value > e.maxDaily {
      errors := errors.(daily := Some(OverEnvelope));
    }
    if monthly.None? {
      errors := errors.(monthly := Some(NotAnAmount));
    } else if monthly.value > e.maxMonthly {
      errors := errors.(monthly := Some(OverEnvelope));
    }
    if ceiling.None? {
      errors := errors.(ceiling := Some(NotAnAmount));
    } else if ceiling.value > e.maxCeiling {
      errors := errors.(ceiling := Some(OverEnvelope));
    }
    if daily.Some? && monthly.Some? && errors.monthly.None? && monthly.value < daily.value {
      errors := errors.(monthly := Some(MonthlyBelowDaily));
    }
    if daily.Some? && ceiling.Some? && errors.daily.None? && errors.ceiling.None? && daily.value > ceiling.value {
      errors := errors.(daily := Some(DailyOverCeiling));
    }
    if errors != NO_ERRORS || daily.None? || monthly.None? || ceiling.None? {
      return errors, None;
    }
    return errors, Some(Update(Amounts(daily.value, monthly.value, ceiling.value), e.currency));
  }

  // ---------------------------------------------------------------------------
  // Caps in effect
  // ---------------------------------------------------------------------------

  /** An account's caps with the floor, which only the file sets. */
  datatype Effective = Effective(amounts: Amounts, floor: nat)

  datatype Source = File | Panel | FileAndPanel | NoSource

  datatype Field = DailyCap | MonthlyCap | Ceiling

  datatype Resolution = Resolution(
    source: Source, writable: bool, effective: Option<Effective>, clamped: seq<Field>, fromPanel: Option<Amounts>)

  function Least(a: nat, b: nat): nat {
    if a <= b then a else b
  }

  function Meet(a: Amounts, b: Amounts): Amounts {
    Amounts(Least(a.daily, b.daily), Least(a.monthly, b.monthly), Least(a.ceiling, b.ceiling))
  }

  function Limits(e: Envelope): Amounts {
    Amounts(e.maxDaily, e.maxMonthly, e.maxCeiling)
  }

  function Clamped(stored: Amounts, applied: Amounts): seq<Field> {
    (if applied.daily < stored.daily then [DailyCap] else []) +
    (if applied.monthly < stored.monthly then [MonthlyCap] else []) +
    (if applied.ceiling < stored.ceiling then [Ceiling] else [])
  }

  function Resolve(file: Option<Effective>, panel: Option<Amounts>, envelope: Option<Envelope>): Resolution {
    if envelope.None? || panel.None? then
      Resolution(if file.Some? then File else NoSource, file.Some?, file, [], None)
    else
      var clamped := Meet(panel.value, Limits(envelope.value));
      if file.None? then
        Resolution(Panel, true, Some(Effective(clamped, envelope.value.minFloor)), Clamped(panel.value, clamped), panel)
      else
        var applied := Meet(clamped, file.value.amounts);
        Resolution(FileAndPanel, true, Some(Effective(applied, file.value.floor)), Clamped(panel.value, applied), panel)
  }

  /** No amount of `a` is above that of `b`. */
  predicate NoHigher(a: Amounts, b: Amounts) {
    a.daily <= b.daily && a.monthly <= b.monthly && a.ceiling <= b.ceiling
  }

  /** Going from `a` to `b` lets the account spend more: it could not write and can, or an amount is
      higher. */
  predicate Raises(a: Resolution, b: Resolution) {
    b.effective.Some? && (a.effective.None? || !NoHigher(b.effective.value.amounts, a.effective.value.amounts))
  }

  /** The caps in effect are the greatest that exceed neither the file, nor the panel, nor the
      envelope, of those that apply. */
  lemma EffectiveIsGreatest(file: Option<Effective>, panel: Amounts, envelope: Envelope, other: Amounts)
    ensures var r := Resolve(file, Some(panel), Some(envelope));
            && r.writable && r.effective.Some?
            && (NoHigher(other, r.effective.value.amounts) <==>
                (NoHigher(other, panel) && NoHigher(other, Limits(envelope))
                 && (file.Some? ==> NoHigher(other, file.value.amounts))))
            && (r.clamped == [] <==> r.effective.value.amounts == panel)
  {
  }

  /** An account may write exactly when it has caps: from the file, or from the panel under an envelope;
      and where they are from is said. The floor is the file's, or else the envelope's, never the panel's. */
  lemma WritableExactlyWithCaps(file: Option<Effective>, panel: Option<Amounts>, envelope: Option<Envelope>)
    ensures var r := Resolve(file, panel, envelope);
            var fromPanel := panel.Some? && envelope.Some?;
            && (r.writable <==> r.effective.Some?) && (r.writable <==> file.Some? || fromPanel)
            && (r.source.File? <==> file.Some? && !fromPanel) && (r.source.Panel? <==> file.None? && fromPanel)
            && (r.source.FileAndPanel? <==> file.Some? && fromPanel)
            && (file.Some? ==> r.effective.value.floor == file.value.floor)
            && (file.None? && fromPanel ==> r.effective.value.floor == envelope.value.minFloor)
            && r.fromPanel == (if fromPanel then panel else None)
            && (!fromPanel ==> r.effective == file && r.clamped == [])
  {
  }

  /** The fields that are said to be cut are those in which what is in effect is below what was set, each
      once and in the order shown. */
  lemma CutFieldsAreSaid(file: Option<Effective>, panel: Amounts, envelope: Envelope)
    ensures var r := Resolve(file, Some(panel), Some(envelope));
            var applied := r.effective.value.amounts;
            && (DailyCap in r.clamped <==> applied.daily < panel.daily)
            && (MonthlyCap in r.clamped <==> applied.monthly < panel.monthly)
            && (Ceiling in r.clamped <==> applied.ceiling < panel.ceiling)
            && (forall i, j :: 0 <= i < j < |r.clamped| ==>
                  || (r.clamped[i].DailyCap? && !r.clamped[j].DailyCap?)
                  || (r.clamped[i].MonthlyCap? && r.clamped[j].Ceiling?))
  {
    var r := Resolve(file, Some(panel), Some(envelope));
    assert r.clamped == Clamped(panel, r.effective.value.amounts);
  }

  /** The form sends three amounts, no daily one above the monthly one or the ceiling, if and only if they
      are in effect as typed where there is no file entry: the envelope cuts none of them. */
  lemma SentExactlyWhenUncut(v: FormValues, e: Envelope)
    ensures Sendable(v, e) <==>
            (Parse(v.daily).Some? && Parse(v.monthly).Some? && Parse(v.ceiling).Some?
             && var typed := Amounts(Parse(v.daily).value, Parse(v.monthly).value, Parse(v.ceiling).value);
             && typed.daily <= typed.monthly && typed.daily <= typed.ceiling
             && Resolve(None, Some(typed), Some(e)).effective == Some(Effective(typed, e.minFloor)))
  {
  }

  /** So caps that are shown in the form can be sent as they are exactly when they are in effect uncut. */
  lemma ShownCapsAreSentBack(a: Amounts, e: Envelope)
    requires a.daily <= MAX_MINOR_AMOUNT && a.monthly <= MAX_MINOR_AMOUNT && a.ceiling <= MAX_MINOR_AMOUNT
    ensures Sendable(FormValues(FormatForInput(a.daily), FormatForInput(a.monthly), FormatForInput(a.ceiling)), e)
       <==> a.daily <= a.monthly && a.daily <= a.ceiling && Resolve(None, Some(a), Some(e)).clamped == []
  {
    FormattedAmountsReadBack(a.daily);
    FormattedAmountsReadBack(a.monthly);
    FormattedAmountsReadBack(a.ceiling);
    EffectiveIsGreatest(None, a, e, a);
  }

  // ---------------------------------------------------------------------------
  // What is announced
  // ---------------------------------------------------------------------------

  predicate RaisesTheEffectiveCap(view: Resolution, caps: Amounts) {
    view.effective.None? || !NoHigher(caps, view.effective.value.amounts)
  }

  predicate WithdrawalRaisesTheEffectiveCap(view: Resolution) {
    view.source.FileAndPanel?
  }

  /** What a set of caps comes down to under the envelope and the file. */
  function Applied(file: Option<Effective>, caps: Amounts, envelope: Envelope): Amounts {
    if file.Some? then Meet(Meet(caps, Limits(envelope)), file.value.amounts) else Meet(caps, Limits(envelope))
  }

  /** Whatever the panel held before and whatever the envelopes, setting caps never raises what is in
      effect unannounced; and it raises exactly when the account had no caps, or some amount is still
      higher once the envelope and the file have cut it down. */
  lemma NoSetRaisesUnannounced(
    file: Option<Effective>, panel: Option<Amounts>, envelope: Option<Envelope>, caps: Amounts, envelopeThen: Envelope)
    ensures var view, after := Resolve(file, panel, envelope), Resolve(file, Some(caps), Some(envelopeThen));
            && (Raises(view, after) ==> RaisesTheEffectiveCap(view, caps))
            && (Raises(view, after) <==>
                view.effective.None? || !NoHigher(Applied(file, caps, envelopeThen), view.effective.value.amounts))
  {
  }

  /** Without a file entry, and within the envelope, a set is announced exactly when it raises. */
  lemma SetIsAnnouncedExactly(panel: Option<Amounts>, envelope: Option<Envelope>, caps: Amounts, envelopeThen: Envelope)
    requires NoHigher(caps, Limits(envelopeThen))
    ensures var view, after := Resolve(None, panel, envelope), Resolve(None, Some(caps), Some(envelopeThen));
            RaisesTheEffectiveCap(view, caps) <==> Raises(view, after)
  {
    assert Meet(caps, Limits(envelopeThen)) == caps;
  }

  /** Nor does taking the panel's caps away raise anything unannounced. It raises exactly when there are
      both kinds of caps and the panel's, clamped, were below the file's somewhere: so resolving without
      the panel's state, said to be never looser than with it, is looser just then. */
  lemma NoWithdrawalRaisesUnannounced(file: Option<Effective>, panel: Option<Amounts>, envelope: Option<Envelope>)
    ensures var view, after := Resolve(file, panel, envelope), Resolve(file, None, envelope);
            && (Raises(view, after) ==> WithdrawalRaisesTheEffectiveCap(view))
            && (Raises(view, after) <==>
                file.Some? && panel.Some? && envelope.Some?
                && !NoHigher(file.value.amounts, Meet(panel.value, Limits(envelope.value))))
  {
  }

  lemma LosingThePanelCanLoosen()
    ensures var file := Some(Effective(Amounts(20000, 400000, 20000), 100));
            var envelope := Some(Envelope(50000, 900000, 50000, 100, "EUR"));
            var with := Resolve(file, Some(Amounts(4000, 80000, 4000)), envelope);
            var without := Resolve(file, None, envelope);
            && Raises(with, without)
            && with.effective.value.amounts.daily == 4000 && without.effective.value.amounts.daily == 20000
  {
  }
}
