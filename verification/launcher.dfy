/** The launcher: reads a day number, validates it, and either starts that day's Streamlit
    app or imports that day's module and calls its `run_day<N>` function. */
module Launcher {
  import opened PyStr

  /** The days whose script is a Streamlit app. */
  const StreamlitDays: set<nat> := {2, 4, 8, 9, 10}

  predicate IsDecimalDigit(c: char) {
    '0' <= c <= '9'
  }

  /** Characters for which `str.isdigit()` holds although they are not decimal digits, so
      that `int()` refuses them: the superscript, subscript and circled digits. */
  predicate IsOtherDigit(c: char) {
    c == '\U{B2}' || c == '\U{B3}' || c == '\U{B9}' || c == '\U{2070}'
    || ('\U{2074}' <= c <= '\U{2079}') || ('\U{2080}' <= c <= '\U{2089}')
    || ('\U{2460}' <= c <= '\U{2468}')
  }

  /** `s.isdigit()`: non-empty and every character a digit. */
  predicate IsDigitString(s: string) {
    s != [] && forall i :: 0 <= i < |s| ==> IsDecimalDigit(s[i]) || IsOtherDigit(s[i])
  }

  /** Non-empty and every character a decimal digit: what `int()` accepts once stripped. */
  predicate IsDecimalString(s: string) {
    s != [] && forall i :: 0 <= i < |s| ==> IsDecimalDigit(s[i])
  }

  /** `int(s)` for a string of decimal digits. */
  function DecimalValue(s: string): nat
    requires forall i :: 0 <= i < |s| ==> IsDecimalDigit(s[i])
  {
    if s == [] then 0
    else
      assert IsDecimalDigit(s[|s| - 1]);
      10 * DecimalValue(s[..|s| - 1]) + (s[|s| - 1] as int - '0' as int)
  }

  /** `str(n)`. */
  function NatToString(n: nat): (s: string)
    ensures IsDecimalString(s)
  {
    if n < 10 then [(n + '0' as int) as char]
    else NatToString(n / 10) + [(n % 10 + '0' as int) as char]
  }

  /** What `main` does with one line of input. */
  datatype Action =
    | Rejected                                   // "Please enter a valid day number (1–10)."
    | LaunchStreamlit(day: nat, command: seq<string>)
    | RunModule(day: nat, entry: string)         // calls run_day<N>() of module day<N>
    | NoRunFunction(day: nat)                    // "No 'run_day<N>()' function found ..."
    | ModuleNotFound(day: nat)                   // "File day<N>.py not found."
    | Crashed                                    // an exception leaves main

  /** What `importlib.import_module` does for one module name: the module's attributes, or
      ModuleNotFoundError, or some other exception. */
  datatype ImportOutcome = Imported(attributes: set<string>) | NotFound | ImportRaised

  /** The dispatch of a valid day number: Streamlit for the app days, the module's
      `run_day<N>` otherwise; the day is carried through and never rejected. */
  function DispatchDay(day: nat, importModule: string -> ImportOutcome): (r: Action)
    ensures r != Rejected && (!r.Crashed? ==> r.day == day)
    ensures r.LaunchStreamlit? <==> day in StreamlitDays
  {
    var name := NatToString(day);
    if day in StreamlitDays then LaunchStreamlit(day, ["streamlit", "run", "day" + name + ".py"])
    else match importModule("day" + name)
      case NotFound => ModuleNotFound(day)
      case ImportRaised => Crashed
      case Imported(attributes) =>
        if "run_day" + name in attributes then RunModule(day, "run_day" + name) else NoRunFunction(day)
  }

  /** The default of `sys.get_int_max_str_digits()` (Python 3.11 and the 2022 security
      releases of 3.7 to 3.10): `int()` refuses a decimal string with more digits. */
  const IntMaxStrDigits := 4300

  /** `main` as written: `isdigit()` is checked first, and `int()` then raises ValueError,
      which nothing catches, on a digit that is not decimal or on more than 4300 digits. */
  function DispatchAsWritten(input: string, importModule: string -> ImportOutcome): (r: Action)
    ensures !r.Rejected? && !r.Crashed? ==>
      IsDecimalString(Strip(input)) && 1 <= r.day <= 10 && r.day == DecimalValue(Strip(input))
  {
    var day := Strip(input);
    if !IsDigitString(day) then Rejected
    else if !IsDecimalString(day) || |day| > IntMaxStrDigits then Crashed
    else if !(1 <= DecimalValue(day) <= 10) then Rejected
    else DispatchDay(DecimalValue(day), importModule)
  }

  /** `main` as intended: anything that is not a whole number from 1 to 10 is rejected with
      the message. */
  function Dispatch(input: string, importModule: string -> ImportOutcome): (r: Action)
    ensures !r.Rejected? && !r.Crashed? ==>
      IsDecimalString(Strip(input)) && 1 <= r.day <= 10 && r.day == DecimalValue(Strip(input))
  {
    var day := Strip(input);
    if !IsDecimalString(day) || !(1 <= DecimalValue(day) <= 10) then Rejected
    else DispatchDay(DecimalValue(day), importModule)
  }

  // ---------------------------------------------------------------------------------------
  // Properties

  /** Printing a number and reading it back gives the number. */
  lemma {:induction false} DecimalValueOfNatToString(n: nat)
    ensures DecimalValue(NatToString(n)) == n
  {
    if n >= 10 {
      var s := NatToString(n / 10);
      DecimalValueOfNatToString(n / 10);
      assert (s + [(n % 10 + '0' as int) as char])[..|s|] == s;
    }
  }

  /** Leading zeros do not change the value: "07" is day 7. */
  lemma {:induction false} LeadingZeroIgnored(s: string)
    requires forall i :: 0 <= i < |s| ==> IsDecimalDigit(s[i])
    ensures DecimalValue("0" + s) == DecimalValue(s)
  {
    if s != [] {
      var init := s[..|s| - 1];
      assert ("0" + s)[..|s|] == "0" + init;
      LeadingZeroIgnored(init);
    }
  }

  /** A day is accepted exactly when the stripped input is a decimal number from 1 to 10. */
  lemma DispatchRejectsExactlyInvalid(input: string, importModule: string -> ImportOutcome)
    ensures Dispatch(input, importModule) != Rejected <==>
      IsDecimalString(Strip(input)) && 1 <= DecimalValue(Strip(input)) <= 10
  {
    var day := Strip(input);
    if IsDecimalString(day) && 1 <= DecimalValue(day) <= 10 {
      var d := DecimalValue(day);
      if d !in StreamlitDays {
        match importModule("day" + NatToString(d))
        case NotFound =>
        case ImportRaised =>
        case Imported(_) =>
      }
    }
  }

  /** The Streamlit app is launched for a valid day exactly when the day is one of 2, 4, 8,
      9, 10, and the command runs that day's script. */
  lemma DispatchLaunchesStreamlitExactlyForAppDays(input: string, importModule: string -> ImportOutcome)
    requires IsDecimalString(Strip(input)) && 1 <= DecimalValue(Strip(input)) <= 10
    ensures var d := DecimalValue(Strip(input));
      Dispatch(input, importModule).LaunchStreamlit? <==> d in StreamlitDays
    ensures var d := DecimalValue(Strip(input));
      d in StreamlitDays ==> Dispatch(input, importModule).command == ["streamlit", "run", "day" + NatToString(d) + ".py"]
  {
    var d := DecimalValue(Strip(input));
    if d !in StreamlitDays {
      match importModule("day" + NatToString(d))
      case NotFound =>
      case ImportRaised =>
      case Imported(_) =>
    }
  }

  /** The input is stripped before it is looked at: surrounding whitespace is ignored. */
  lemma DispatchIgnoresSurroundingSpace(input: string, importModule: string -> ImportOutcome)
    ensures Dispatch(input, importModule) == Dispatch(Strip(input), importModule)
  {
    StripIdempotent(input);
  }

  /** A module that cannot be found is reported, not raised. */
  lemma MissingModuleReported(d: nat, importModule: string -> ImportOutcome)
    requires 1 <= d <= 10 && d !in StreamlitDays
    requires importModule("day" + NatToString(d)) == NotFound
    ensures Dispatch(NatToString(d), importModule) == ModuleNotFound(d)
  {
    var s := NatToString(d);
    DecimalValueOfNatToString(d);
    NotSpace(s[0]);
    NotSpace(s[|s| - 1]);
    StripUnchanged(s);
  }

  /** Where the code as written does not crash it agrees with the intended dispatch. */
  lemma AsWrittenAgreesUnlessCrash(input: string, importModule: string -> ImportOutcome)
    requires DispatchAsWritten(input, importModule) != Crashed
    ensures DispatchAsWritten(input, importModule) == Dispatch(input, importModule)
  {
  }

  /** The discrepancy: "²" passes `isdigit()` and makes `int()` raise, so `main` crashes on
      it, where the intended launcher rejects it with its message. */
  lemma SuperscriptDigitCrashesAsWritten(importModule: string -> ImportOutcome)
    ensures DispatchAsWritten("\U{B2}", importModule) == Crashed
    ensures Dispatch("\U{B2}", importModule) == Rejected
  {
    NotSpace('\U{B2}');
    StripUnchanged("\U{B2}");
  }

  /** A string of `n` ones. */
  function Ones(n: nat): string
  {
    seq(n, _ => '1')
  }

  lemma {:induction false} OnesValue(n: nat)
    requires n >= 2
    ensures DecimalValue(Ones(n)) >= 11
  {
    assert Ones(n)[..n - 1] == Ones(n - 1);
    if n == 2 {
      assert Ones(1)[..0] == [];
    } else {
      OnesValue(n - 1);
    }
  }

  /** The second discrepancy: 4301 ones pass `isdigit()`, and `int()` refuses so many
      digits, so `main` crashes, where the intended launcher rejects the number. */
  lemma LongNumeralCrashesAsWritten(importModule: string -> ImportOutcome)
    ensures DispatchAsWritten(Ones(IntMaxStrDigits + 1), importModule) == Crashed
    ensures Dispatch(Ones(IntMaxStrDigits + 1), importModule) == Rejected
  {
    var s := Ones(IntMaxStrDigits + 1);
    NotSpace('1');
    StripUnchanged(s);
    assert IsDecimalString(s);
    OnesValue(IntMaxStrDigits + 1);
  }
}
